/**
  The sign-up form (app/components/auth/SignupForm.tsx): the field checks
  of validateForm, the guard and the outcome handling of handleSubmit, and
  the error clearing of the change handlers. The sign-up request and the
  organization request are parameters; storing the token and navigating
  are reduced to the destination the form would navigate to.
*/
module SignupForm {
  import opened Wrappers
  import Text
  import opened Forms
  import BoardTypes

  /** The payload of signupUser. */
  datatype SignupCredentials = SignupCredentials(name: string, email: string, password: string, confirmPassword: string)

  /** The fields of `formData` that handleInputChange edits. */
  predicate IsFormField(f: FieldName) {
    f == Name || f == Email || f == Password || f == ConfirmPassword
  }

  /** The keys validateForm may fill. */
  const FieldKeys: set<FieldName> := {Name, Email, Password, ConfirmPassword, OrganizationName}

  /** The error object of five optional messages, one per field of the form. */
  function Collect(name: Option<string>, email: Option<string>, password: Option<string>,
                   confirmPassword: Option<string>, organizationName: Option<string>): (e: Errors)
    ensures Name in e <==> name.Some?
    ensures Name in e ==> Some(e[Name]) == name
    ensures Email in e <==> email.Some?
    ensures Email in e ==> Some(e[Email]) == email
    ensures Password in e <==> password.Some?
    ensures Password in e ==> Some(e[Password]) == password
    ensures ConfirmPassword in e <==> confirmPassword.Some?
    ensures ConfirmPassword in e ==> Some(e[ConfirmPassword]) == confirmPassword
    ensures OrganizationName in e <==> organizationName.Some?
    ensures OrganizationName in e ==> Some(e[OrganizationName]) == organizationName
    ensures e.Keys <= FieldKeys
  {
    var e0 := Record(map[], Name, name);
    var e1 := Record(e0, Email, email);
    var e2 := Record(e1, Password, password);
    var e3 := Record(e2, ConfirmPassword, confirmPassword);
    Record(e3, OrganizationName, organizationName)
  }

  function NameError(name: string): (e: Option<string>)
    ensures e.Some? <==> Text.Trim(name) == ""
    ensures e.Some? ==> e.value == "Name is required"
  {
    if Text.Trim(name) == "" then Some("Name is required") else None
  }

  function OrganizationNameError(createOrganization: bool, organizationName: string): (e: Option<string>)
    ensures e.Some? <==> createOrganization && Text.Trim(organizationName) == ""
    ensures e.Some? ==> e.value == "Organization name is required"
  {
    if createOrganization && Text.Trim(organizationName) == "" then Some("Organization name is required") else None
  }

  /**
    The error object validateForm builds: one message per failing field, the
    email checked as typed after a blank test on its trim, and the
    organization name only when an organization is to be created.
  */
  function SignupErrors(name: string, email: string, password: string, confirmPassword: string,
                        createOrganization: bool, organizationName: string): (e: Errors)
    ensures Name in e <==> Text.Trim(name) == ""
    ensures Name in e ==> e[Name] == "Name is required"
    ensures Email in e <==> EmailError(email).Some?
    ensures Email in e ==> Some(e[Email]) == EmailError(email)
    ensures Password in e <==> PasswordError(password).Some?
    ensures Password in e ==> Some(e[Password]) == PasswordError(password)
    ensures ConfirmPassword in e <==> ConfirmationError(password, confirmPassword).Some?
    ensures ConfirmPassword in e ==> Some(e[ConfirmPassword]) == ConfirmationError(password, confirmPassword)
    ensures OrganizationName in e <==> createOrganization && Text.Trim(organizationName) == ""
    ensures OrganizationName in e ==> e[OrganizationName] == "Organization name is required"
    ensures e.Keys <= FieldKeys
  {
    Collect(NameError(name), EmailError(email), PasswordError(password),
            ConfirmationError(password, confirmPassword), OrganizationNameError(createOrganization, organizationName))
  }

  /** The form is valid exactly when every field passes its own rule. */
  lemma SignupValidIff(name: string, email: string, password: string, confirmPassword: string,
                       createOrganization: bool, organizationName: string)
    ensures SignupErrors(name, email, password, confirmPassword, createOrganization, organizationName) == map[]
      <==> && Text.Trim(name) != ""
           && Text.Trim(email) != "" && MatchesEmailPattern(email)
           && |password| >= 6
           && confirmPassword != "" && confirmPassword == password
           && (createOrganization ==> Text.Trim(organizationName) != "")
  {
    var e := SignupErrors(name, email, password, confirmPassword, createOrganization, organizationName);
    if e != map[] {
      var k :| k in e;
      assert k in FieldKeys;
    }
  }

  /** The organization check applies only when the box is ticked: without it, an empty organization name is no error. */
  lemma OrganizationOptional(name: string, email: string, password: string, confirmPassword: string, organizationName: string)
    ensures OrganizationName !in SignupErrors(name, email, password, confirmPassword, false, organizationName)
    ensures SignupErrors(name, email, password, confirmPassword, false, organizationName)
         == SignupErrors(name, email, password, confirmPassword, false, "")
  {
    var a := SignupErrors(name, email, password, confirmPassword, false, organizationName);
    var b := SignupErrors(name, email, password, confirmPassword, false, "");
    assert a.Keys == b.Keys;
  }

  const SignupFailed := "Signup failed. Please try again."
  const OrganizationFailed := "Failed to create organization. Please try again."
  const OrganizationThrew := "Account created but failed to create organization. Please try creating it later."
  const Dashboard := "/organization-dashboard"

  /** Where a completed sign-up leads: the invitation being accepted, else the dashboard. */
  function Destination(invitationToken: string): (path: string)
    ensures invitationToken == "" ==> path == Dashboard
    ensures invitationToken != "" ==> path == "/invitations/accept/" + invitationToken
  {
    if invitationToken != "" then "/invitations/accept/" + invitationToken else Dashboard
  }

  class Form {
    var createOrganization: bool
    var name: string
    var email: string
    var password: string
    var confirmPassword: string
    var organizationName: string
    var errors: Errors

    /** The initial state; `initialEmail || ""` is the given text, "" when absent. */
    constructor(initialEmail: string)
      ensures !createOrganization && name == "" && email == initialEmail && password == ""
      ensures confirmPassword == "" && organizationName == "" && errors == map[]
    {
      createOrganization := false;
      name := "";
      email := initialEmail;
      password := "";
      confirmPassword := "";
      organizationName := "";
      errors := map[];
    }

    /** validateForm: fills a fresh error object field by field, stores it and reports whether it stayed empty. */
    method ValidateForm() returns (valid: bool)
      modifies this
      ensures errors == SignupErrors(name, email, password, confirmPassword, createOrganization, organizationName)
      ensures valid <==> errors == map[]
      ensures name == old(name) && email == old(email) && password == old(password)
      ensures confirmPassword == old(confirmPassword) && createOrganization == old(createOrganization)
      ensures organizationName == old(organizationName)
    {
      var newErrors: Errors := map[];
      newErrors := Record(newErrors, Name, NameError(name));
      newErrors := Record(newErrors, Email, EmailError(email));
      newErrors := Record(newErrors, Password, PasswordError(password));
      newErrors := Record(newErrors, ConfirmPassword, ConfirmationError(password, confirmPassword));
      newErrors := Record(newErrors, OrganizationName, OrganizationNameError(createOrganization, organizationName));
      errors := newErrors;
      // Object.keys(newErrors).length === 0
      valid := |newErrors.Keys| == 0;
    }

    /**
      handleSubmit: an invalid form stops with the validation messages and
      no request. Otherwise signupUser gets the name as typed and the
      trimmed email, and the response is handled as Respond states.
    */
    method HandleSubmit(response: AuthResponse, organizationResponse: AuthResponse, invitationToken: string)
      returns (signup: Option<SignupCredentials>, organizationRequest: Option<string>, destination: Option<string>)
      modifies this
      ensures name == old(name) && email == old(email) && password == old(password)
      ensures confirmPassword == old(confirmPassword) && createOrganization == old(createOrganization)
      ensures organizationName == old(organizationName)
      ensures var e := SignupErrors(name, email, password, confirmPassword, createOrganization, organizationName);
        && (e != map[] ==> signup.None? && organizationRequest.None? && destination.None? && errors == e)
        && (e == map[] ==> signup == Some(SignupCredentials(name, Text.Trim(email), password, confirmPassword))
                           && Responded(response, organizationResponse, invitationToken, organizationRequest, destination))
    {
      organizationRequest := None;
      destination := None;
      errors := map[];
      var valid := ValidateForm();
      if !valid {
        signup := None;
        return;
      }
      signup := Some(SignupCredentials(name, Text.Trim(email), password, confirmPassword));
      organizationRequest, destination := Respond(response, organizationResponse, invitationToken);
    }

    /**
      What handling the sign-up response leaves: a thrown call or a failed or
      incomplete response a form-wide message; a complete success the
      organization request when one was asked for and named, then either
      the organization failure's message or the destination.
    */
    ghost predicate Responded(response: AuthResponse, organizationResponse: AuthResponse, invitationToken: string,
                              organizationRequest: Option<string>, destination: Option<string>)
      reads this
    {
      && (response.Threw? ==>
            organizationRequest.None? && destination.None? && errors == OnlyGeneral(UnexpectedError))
      && (response.Responded? && !(response.success && response.complete) ==>
            organizationRequest.None? && destination.None? && errors == OnlyGeneral(BoardTypes.OrElse(response.error, SignupFailed)))
      && (response.Responded? && response.success && response.complete ==>
            var wantsOrganization := createOrganization && Text.Trim(organizationName) != "";
            && (wantsOrganization ==> organizationRequest == Some(Text.Trim(organizationName)))
            && (!wantsOrganization ==> organizationRequest.None?)
            && (wantsOrganization && organizationResponse.Threw? ==>
                  destination.None? && errors == OnlyGeneral(OrganizationThrew))
            && (wantsOrganization && organizationResponse.Responded? && !organizationResponse.success ==>
                  destination.None? && errors == OnlyGeneral(BoardTypes.OrElse(organizationResponse.error, OrganizationFailed)))
            && (!wantsOrganization || (organizationResponse.Responded? && organizationResponse.success) ==>
                  destination == Some(Destination(invitationToken)) && errors == map[]))
    }

    /** The part of handleSubmit after signupUser returned or threw; `errors` is empty on entry. */
    method Respond(response: AuthResponse, organizationResponse: AuthResponse, invitationToken: string)
      returns (organizationRequest: Option<string>, destination: Option<string>)
      requires errors == map[]
      modifies this
      ensures name == old(name) && email == old(email) && password == old(password)
      ensures confirmPassword == old(confirmPassword) && createOrganization == old(createOrganization)
      ensures organizationName == old(organizationName)
      ensures Responded(response, organizationResponse, invitationToken, organizationRequest, destination)
    {
      organizationRequest := None;
      destination := None;
      match response {
        case Threw =>
          errors := OnlyGeneral(UnexpectedError);
        case Responded(success, complete, error) =>
          if success && complete {
            if createOrganization && Text.Trim(organizationName) != "" {
              organizationRequest := Some(Text.Trim(organizationName));
              match organizationResponse {
                case Threw =>
                  errors := OnlyGeneral(OrganizationThrew);
                  return;
                case Responded(orgSuccess, _, orgError) =>
                  if !orgSuccess {
                    errors := OnlyGeneral(BoardTypes.OrElse(orgError, OrganizationFailed));
                    return;
                  }
              }
            }
            destination := Some(Destination(invitationToken));
          } else if error != "" && Text.Contains(error, "errors") {
            errors := OnlyGeneral(error);
          } else {
            errors := OnlyGeneral(BoardTypes.OrElse(error, SignupFailed));
          }
      }
    }

    /** handleInputChange: sets the field and clears only its message. */
    method HandleInputChange(field: FieldName, value: string)
      requires IsFormField(field)
      modifies this
      ensures name == (if field == Name then value else old(name))
      ensures email == (if field == Email then value else old(email))
      ensures password == (if field == Password then value else old(password))
      ensures confirmPassword == (if field == ConfirmPassword then value else old(confirmPassword))
      ensures organizationName == old(organizationName) && createOrganization == old(createOrganization)
      ensures errors == AfterEdit(old(errors), field)
    {
      match field {
        case Name => name := value;
        case Email => email := value;
        case Password => password := value;
        case ConfirmPassword => confirmPassword := value;
        case _ => assert false;
      }
      errors := AfterEdit(errors, field);
    }

    /** handleOrganizationChange: sets the organization name and clears only its message. */
    method HandleOrganizationChange(value: string)
      modifies this
      ensures organizationName == value
      ensures name == old(name) && email == old(email) && password == old(password)
      ensures confirmPassword == old(confirmPassword) && createOrganization == old(createOrganization)
      ensures errors == AfterEdit(old(errors), OrganizationName)
    {
      organizationName := value;
      errors := AfterEdit(errors, OrganizationName);
    }

    /** The organization toggle (setCreateOrganization). */
    method SetCreateOrganization(value: bool)
      modifies this
      ensures createOrganization == value && errors == old(errors)
      ensures name == old(name) && email == old(email) && password == old(password)
      ensures confirmPassword == old(confirmPassword) && organizationName == old(organizationName)
    {
      createOrganization := value;
    }
  }
}
