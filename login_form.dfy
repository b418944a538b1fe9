/** The login form: its two fields, the validation rules that fill the error
    record, the edits that clear a field's error, and the start of a submit. */
module LoginForm {
  import opened Common

  datatype Field = Email | Password

  /** `formData`. */
  datatype FormData = FormData(email: string, password: string)

  /** `errors`: one optional message per field; None stands for a key that is
      absent or set to null. */
  datatype Errors = Errors(email: Option<string>, password: Option<string>)

  const NoErrors: Errors := Errors(None, None)
  const EmptyForm: FormData := FormData("", "")

  const EmailRequired: string := "Email is required"
  const EmailInvalid: string := "Email is invalid"
  const PasswordIncorrect: string := "Password is incorrect"
  const UnknownEmail: string := "Cet email n'existe pas."
  const LoginFailedText: string := "Une erreur s'est produite lors de la connexion. Veuillez réessayer."
  const ToastPrefix: string := "Erreur de connexion: "

  function Get(d: FormData, f: Field): string {
    match f
    case Email => d.email
    case Password => d.password
  }

  /** `{ ...formData, [id]: value }`. */
  function Set(d: FormData, f: Field, v: string): (r: FormData)
    ensures Get(r, f) == v
    ensures forall g: Field | g != f :: Get(r, g) == Get(d, g)
  {
    match f
    case Email => d.(email := v)
    case Password => d.(password := v)
  }

  function ErrorOf(e: Errors, f: Field): Option<string> {
    match f
    case Email => e.email
    case Password => e.password
  }

  /** `{ ...errors, [id]: null }`. */
  function ClearError(e: Errors, f: Field): (r: Errors)
    ensures ErrorOf(r, f) == None
    ensures forall g: Field | g != f :: ErrorOf(r, g) == ErrorOf(e, g)
  {
    match f
    case Email => e.(email := None)
    case Password => e.(password := None)
  }

  /** `Object.keys(newErrors).length === 0` on a freshly built record. */
  predicate IsValid(e: Errors) {
    e == NoErrors
  }

  /** The message `validateForm` sets for one field, if any: the e-mail is
      required as typed (a blank one is not empty), then must contain a match
      of `\S+@\S+\.\S+`; the password only has to be non-empty. */
  function FieldError(d: FormData, f: Field): Option<string> {
    match f
    case Email =>
      if d.email == "" then Some(EmailRequired)
      else if !LooksLikeEmail(d.email) then Some(EmailInvalid)
      else None
    case Password => if d.password == "" then Some(PasswordIncorrect) else None
  }

  /** The e-mail rule against the regular expression taken literally. */
  lemma EmailRule(d: FormData)
    ensures FieldError(d, Email) == Some(EmailRequired) <==> |d.email| == 0
    ensures FieldError(d, Email) == Some(EmailInvalid) <==> |d.email| > 0 && !MatchesEmailRegex(d.email)
    ensures FieldError(d, Email) == None <==> MatchesEmailRegex(d.email)
  {
    LooksLikeEmailIffRegex(d.email);
  }

  /** A string of blanks is not empty, so it passes the required check and is
      reported as invalid instead. */
  lemma BlankEmailIsInvalid(d: FormData)
    requires |d.email| > 0 && AllSpace(d.email)
    ensures FieldError(d, Email) == Some(EmailInvalid)
  {
    forall p, q | 0 <= p < |d.email| && 0 <= q < |d.email| ensures !EmailAt(d.email, p, q) {
      assert IsSpace(d.email[p]);
    }
  }

  /** The error record `validateForm` builds. */
  function AllErrors(d: FormData): (e: Errors)
    ensures forall f: Field :: ErrorOf(e, f) == FieldError(d, f)
  {
    Errors(FieldError(d, Email), FieldError(d, Password))
  }

  /** The form is valid exactly when the e-mail matches and a password was
      typed. */
  lemma ValidIff(d: FormData)
    ensures IsValid(AllErrors(d)) <==> MatchesEmailRegex(d.email) && d.password != ""
  {
    EmailRule(d);
  }

  /** The toast text the failure branch is written to show: the server's
      message, or the generic text, after the fixed prefix. As written it is
      never built, because `toast` is not imported (see `FinishLogin`). */
  function FailureToast(message: Option<string>): (t: string)
    ensures |t| > |ToastPrefix| && t[..|ToastPrefix|] == ToastPrefix
    ensures Truthy(message) ==> t[|ToastPrefix|..] == message.value
    ensures !Truthy(message) ==> t[|ToastPrefix|..] == LoginFailedText
  {
    var body := OrElse(message, LoginFailedText);
    var t := ToastPrefix + body;
    assert t[|ToastPrefix|..] == body;
    t
  }

  class LoginFormState {
    var formData: FormData
    var errors: Errors
    var isLoading: bool

    constructor()
      ensures formData == EmptyForm && errors == NoErrors && !isLoading
    {
      formData := EmptyForm;
      errors := NoErrors;
      isLoading := false;
    }

    /** `handleChange` on field `f`: the field takes the value and only its
        error is cleared, when it had one. */
    method Change(f: Field, v: string)
      modifies this
      ensures formData == Set(old(formData), f, v)
      ensures !Truthy(ErrorOf(errors, f))
      ensures Truthy(ErrorOf(old(errors), f)) ==> errors == ClearError(old(errors), f)
      ensures !Truthy(ErrorOf(old(errors), f)) ==> errors == old(errors)
      ensures isLoading == old(isLoading)
    {
      formData := Set(formData, f, v);
      if Truthy(ErrorOf(errors, f)) {
        errors := ClearError(errors, f);
      }
    }

    /** `validateForm`: a fresh error record is filled rule by rule and
        replaces the old one. */
    method Validate() returns (valid: bool)
      modifies this
      ensures errors == AllErrors(formData)
      ensures valid <==> IsValid(errors)
      ensures formData == old(formData) && isLoading == old(isLoading)
    {
      var d := formData;
      var newErrors := NoErrors;
      if d.email == "" {
        newErrors := newErrors.(email := Some(EmailRequired));
      } else if !LooksLikeEmail(d.email) {
        newErrors := newErrors.(email := Some(EmailInvalid));
      }
      if d.password == "" {
        newErrors := newErrors.(password := Some(PasswordIncorrect));
      }
      errors := newErrors;
      valid := errors == NoErrors;
    }

    /** The guard of `handleSubmit`: an invalid form stops there; a valid one
        starts loading and asks whether the e-mail is known. */
    method BeginSubmit() returns (check: Option<string>)
      modifies this
      ensures errors == AllErrors(formData)
      ensures check.Some? <==> IsValid(errors)
      ensures check.Some? ==> check.value == formData.email && isLoading
      ensures check.None? ==> isLoading == old(isLoading)
      ensures formData == old(formData)
    {
      var valid := Validate();
      if !valid {
        return None;
      }
      isLoading := true;
      check := Some(formData.email);
    }

    /** The user check answered: an unknown e-mail sets that field's error
        and ends loading, and the password is not sent; a known one goes on
        to the login request. */
    method FinishCheck(exists_: bool) returns (sendLogin: bool)
      modifies this
      ensures sendLogin == exists_
      ensures !exists_ ==> errors == old(errors).(email := Some(UnknownEmail)) && !isLoading
      ensures exists_ ==> errors == old(errors) && isLoading == old(isLoading)
      ensures formData == old(formData)
    {
      if !exists_ {
        errors := errors.(email := Some(UnknownEmail));
        isLoading := false;
        return false;
      }
      sendLogin := true;
    }

    /** The login request ended (the `finally` of `handleSubmit`): loading
        ends either way. On a failure the `catch` calls `toast.error`, but
        this file never imports `toast`, so that call throws a
        `ReferenceError` before its argument is built: no toast is shown and
        the error leaves `handleSubmit`. `thrown` is that escaping error. */
    method FinishLogin(succeeded: bool) returns (thrown: bool)
      modifies this
      ensures thrown <==> !succeeded
      ensures !isLoading
      ensures formData == old(formData) && errors == old(errors)
    {
      thrown := !succeeded;
      isLoading := false;
    }
  }
}
