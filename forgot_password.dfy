/**
  The forgotten-password page (app/components/auth/ForgotPasswordPage.tsx):
  the checks of handleSubmit, the request it makes and its outcome, and
  the "Try Different Email" button. The request is a parameter.
*/
module ForgotPassword {
  import opened Wrappers
  import Text
  import opened Forms
  import BoardTypes

  const SendFailed := "Failed to send password reset email. Please try again."

  class Page {
    var email: string
    var isLoading: bool
    var isSubmitted: bool
    var error: Option<string>

    constructor()
      ensures email == "" && !isLoading && !isSubmitted && error.None?
    {
      email := "";
      isLoading := false;
      isSubmitted := false;
      error := None;
    }

    /** The email field's change handler: sets the text and clears a message that is shown (a non-empty one). */
    method SetEmail(value: string)
      modifies this
      ensures email == value
      ensures error == if old(error).Some? && old(error).value != "" then None else old(error)
      ensures isLoading == old(isLoading) && isSubmitted == old(isSubmitted)
    {
      email := value;
      if error.Some? && error.value != "" {
        error := None;
      }
    }

    /**
      handleSubmit: a blank email and one that does not match the pattern as
      typed stop with the message the sign-up form would give, without a
      request. Otherwise forgotPassword gets the trimmed email and the
      response is handled as Respond states.
    */
    method HandleSubmit(response: AuthResponse) returns (request: Option<string>)
      modifies this
      ensures email == old(email)
      ensures EmailError(email).Some? ==>
        request.None? && error == EmailError(email)
        && isLoading == old(isLoading) && isSubmitted == old(isSubmitted)
      ensures EmailError(email).None? ==>
        request == Some(Text.Trim(email)) && Responded(response, old(isSubmitted))
    {
      if Text.Trim(email) == "" {
        error := Some("Email is required");
        return None;
      }
      // validateEmail
      if !MatchesEmailPattern(email) {
        error := Some("Please enter a valid email address");
        return None;
      }
      isLoading := true;
      error := None;
      request := Some(Text.Trim(email));
      Respond(response);
    }

    /**
      What handling the response leaves: success marks the page submitted,
      anything else sets one message; the loading flag false.
    */
    ghost predicate Responded(response: AuthResponse, wasSubmitted: bool)
      reads this
    {
      && !isLoading
      && (response.Responded? && response.success ==> isSubmitted && error.None?)
      && (response.Responded? && !response.success ==>
            isSubmitted == wasSubmitted && error == Some(BoardTypes.OrElse(response.error, SendFailed)))
      && (response.Threw? ==> isSubmitted == wasSubmitted && error == Some(UnexpectedError))
    }

    /** The part of handleSubmit after forgotPassword returned or threw, with its `finally`. */
    method Respond(response: AuthResponse)
      requires error.None?
      modifies this
      ensures email == old(email)
      ensures Responded(response, old(isSubmitted))
    {
      match response {
        case Responded(success, _, message) =>
          if success {
            isSubmitted := true;
          } else {
            error := Some(BoardTypes.OrElse(message, SendFailed));
          }
        case Threw =>
          error := Some(UnexpectedError);
      }
      isLoading := false;
    }

    /** "Try Different Email": back to the form with an empty field. */
    method TryDifferentEmail()
      modifies this
      ensures !isSubmitted && email == ""
      ensures error == old(error) && isLoading == old(isLoading)
    {
      isSubmitted := false;
      email := "";
    }
  }
}
