/** The forgot-password form: the e-mail check, the edit that clears the
    error, and how each answer of the two requests sets the messages. */
module ForgotPassword {
  import opened Common

  const EmailRequired: string := "Email is required"
  const EmailInvalid: string := "Email is invalid"
  const UnknownEmail: string := "Cet email n'existe pas dans notre système."
  const LinkSentText: string := "Un lien de réinitialisation a été envoyé à votre adresse email."
  const RetryText: string := "Une erreur s'est produite. Veuillez réessayer."
  const RetryLaterText: string := "Une erreur s'est produite. Veuillez réessayer plus tard."

  /** The message `validateForm` sets, if any: the e-mail is required as
      typed, then must contain a match of `\S+@\S+\.\S+`. */
  function ValidationError(email: string): Option<string> {
    if email == "" then Some(EmailRequired)
    else if !LooksLikeEmail(email) then Some(EmailInvalid)
    else None
  }

  /** The rule against the regular expression taken literally: each message
      for exactly its case, and no message exactly on a match. */
  lemma ValidationRule(email: string)
    ensures ValidationError(email) == Some(EmailRequired) <==> |email| == 0
    ensures ValidationError(email) == Some(EmailInvalid) <==> |email| > 0 && !MatchesEmailRegex(email)
    ensures ValidationError(email) == None <==> MatchesEmailRegex(email)
  {
    LooksLikeEmailIffRegex(email);
  }

  /** How the reset request ended: an answer with its `success` flag and
      `message`, or a thrown error with the response's `message`, if any. */
  datatype ResetOutcome =
    | Answered(success: bool, message: Option<string>)
    | Threw(message: Option<string>)

  class ForgotPasswordState {
    var email: string
    var isLoading: bool
    /** `error`; the empty string shows no alert. */
    var error: string
    /** `success`; the empty string shows no alert. */
    var success: string

    constructor()
      ensures email == "" && !isLoading && error == "" && success == ""
    {
      email := "";
      isLoading := false;
      error := "";
      success := "";
    }

    /** `handleChange`. */
    method Change(v: string)
      modifies this
      ensures email == v && error == ""
      ensures isLoading == old(isLoading) && success == old(success)
    {
      email := v;
      error := "";
    }

    /** The start of `handleSubmit`: a failed validation shows its message
        and sends nothing; otherwise loading starts, the error is cleared and
        the e-mail goes to the user check. */
    method BeginSubmit() returns (check: Option<string>)
      modifies this
      ensures ValidationError(old(email)).Some? ==>
                check == None && error == ValidationError(old(email)).value && isLoading == old(isLoading)
      ensures ValidationError(old(email)).None? ==> check == Some(old(email)) && isLoading && error == ""
      ensures email == old(email) && success == old(success)
    {
      var failure := ValidationError(email);
      if failure.Some? {
        error := failure.value;
        return None;
      }
      isLoading := true;
      error := "";
      check := Some(email);
    }

    /** The user check answered: an unknown e-mail is reported and loading
        ends; a known one goes on to the reset request. */
    method FinishCheck(exists_: bool) returns (sendReset: bool)
      modifies this
      ensures sendReset == exists_
      ensures !exists_ ==> error == UnknownEmail && !isLoading
      ensures exists_ ==> error == old(error) && isLoading == old(isLoading)
      ensures email == old(email) && success == old(success)
    {
      if !exists_ {
        error := UnknownEmail;
        isLoading := false;
        return false;
      }
      sendReset := true;
    }

    /** The reset request ended: a success shows the server's message or the
        default one and clears the e-mail; a refusal or a thrown error shows
        the server's message or its own default; loading ends either way. */
    method FinishReset(outcome: ResetOutcome)
      modifies this
      ensures !isLoading
      ensures outcome.Answered? && outcome.success ==>
                success == OrElse(outcome.message, LinkSentText) && email == "" && error == old(error)
      ensures outcome.Answered? && !outcome.success ==>
                error == OrElse(outcome.message, RetryText) && email == old(email) && success == old(success)
      ensures outcome.Threw? ==>
                error == OrElse(outcome.message, RetryLaterText) && email == old(email) && success == old(success)
    {
      match outcome {
        case Answered(ok, message) =>
          if ok {
            success := OrElse(message, LinkSentText);
            email := "";
          } else {
            error := OrElse(message, RetryText);
          }
        case Threw(message) =>
          error := OrElse(message, RetryLaterText);
      }
      isLoading := false;
    }
  }
}
