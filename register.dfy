/** The registration form: its five fields, the validation rules that fill
    the error record, the campus e-mail format, and the edits that clear a
    field's error. */
module Register {
  import opened Common

  datatype Field = Username | Email | UserType | Password | ConfirmPassword

  /** `formData`. */
  datatype FormData = FormData(username: string, email: string, userType: string,
                               password: string, confirmPassword: string)

  /** `errors`: one optional message per field; None stands for a key that is
      absent or set to null, which every reader treats alike. */
  datatype Errors = Errors(username: Option<string>, email: Option<string>, userType: Option<string>,
                           password: Option<string>, confirmPassword: Option<string>)

  const NoErrors: Errors := Errors(None, None, None, None, None)
  const EmptyForm: FormData := FormData("", "", "", "", "")

  const UsernameRequired: string := "Le nom d'utilisateur est requis"
  const EmailRequired: string := "L'email est requis"
  const EmailFormat: string := "Format d'email invalide. L'email doit être sous la forme example@emsi-edu.ma"
  const UserTypeRequired: string := "Veuillez sélectionner un type d'utilisateur"
  const PasswordRequired: string := "Le mot de passe est requis"
  const PasswordTooShort: string := "Le mot de passe doit contenir au moins 6 caractères"
  const PasswordMismatch: string := "Les mots de passe ne correspondent pas"
  const MinPasswordLength: nat := 6

  function Get(d: FormData, f: Field): string {
    match f
    case Username => d.username
    case Email => d.email
    case UserType => d.userType
    case Password => d.password
    case ConfirmPassword => d.confirmPassword
  }

  /** `{ ...formData, [id]: value }`: that field takes the value, the others
      keep theirs. */
  function Set(d: FormData, f: Field, v: string): (r: FormData)
    ensures Get(r, f) == v
    ensures forall g: Field | g != f :: Get(r, g) == Get(d, g)
  {
    match f
    case Username => d.(username := v)
    case Email => d.(email := v)
    case UserType => d.(userType := v)
    case Password => d.(password := v)
    case ConfirmPassword => d.(confirmPassword := v)
  }

  function ErrorOf(e: Errors, f: Field): Option<string> {
    match f
    case Username => e.username
    case Email => e.email
    case UserType => e.userType
    case Password => e.password
    case ConfirmPassword => e.confirmPassword
  }

  /** `{ ...errors, [id]: null }`: that field's error goes, the others stay. */
  function ClearError(e: Errors, f: Field): (r: Errors)
    ensures ErrorOf(r, f) == None
    ensures forall g: Field | g != f :: ErrorOf(r, g) == ErrorOf(e, g)
  {
    match f
    case Username => e.(username := None)
    case Email => e.(email := None)
    case UserType => e.(userType := None)
    case Password => e.(password := None)
    case ConfirmPassword => e.(confirmPassword := None)
  }

  predicate IsValid(e: Errors) {
    e == NoErrors
  }

  // ---------------------------------------------------------------------
  // The campus e-mail format `^[a-zA-Z0-9._%+-]+@emsi-edu\.ma$`

  const EmsiDomain: string := "@emsi-edu.ma"

  /** The characters the local part may use. */
  predicate LocalChar(c: char) {
    ('a' <= c <= 'z') || ('A' <= c <= 'Z') || ('0' <= c <= '9')
    || c == '.' || c == '_' || c == '%' || c == '+' || c == '-'
  }

  /** The regular expression taken literally: the whole string is a
      non-empty run of local characters followed by the domain. */
  ghost predicate MatchesEmsiRegex(s: string) {
    exists k :: 0 < k <= |s| && (forall i | 0 <= i < k :: LocalChar(s[i])) && s[k..] == EmsiDomain
  }

  /** The test as the form runs it: the string ends with the domain, and what
      comes before it is a non-empty run of local characters. */
  predicate IsEmsiEmail(s: string) {
    |s| > |EmsiDomain|
    && s[|s| - |EmsiDomain|..] == EmsiDomain
    && forall i | 0 <= i < |s| - |EmsiDomain| :: LocalChar(s[i])
  }

  lemma IsEmsiEmailIffRegex(s: string)
    ensures IsEmsiEmail(s) <==> MatchesEmsiRegex(s)
  {
    if IsEmsiEmail(s) {
      var k := |s| - |EmsiDomain|;
      assert 0 < k <= |s| && (forall i | 0 <= i < k :: LocalChar(s[i])) && s[k..] == EmsiDomain;
    }
    if MatchesEmsiRegex(s) {
      var k :| 0 < k <= |s| && (forall i | 0 <= i < k :: LocalChar(s[i])) && s[k..] == EmsiDomain;
      assert |s[k..]| == |EmsiDomain|;
    }
  }

  lemma LocalCharNotSpace(c: char)
    requires LocalChar(c)
    ensures !IsSpace(c)
  {
  }

  lemma DomainHasNoSpace()
    ensures NoSpace(EmsiDomain)
  {
  }

  /** An accepted address holds no whitespace at all, so it is never blank:
      the format check only runs on addresses the required check let by. */
  lemma EmsiEmailHasNoSpace(s: string)
    requires IsEmsiEmail(s)
    ensures NoSpace(s)
    ensures Trim(s) != ""
  {
    var k := |s| - |EmsiDomain|;
    DomainHasNoSpace();
    forall i | 0 <= i < |s| ensures !IsSpace(s[i]) {
      if i >= k {
        assert s[i] == EmsiDomain[i - k];
      } else {
        LocalCharNotSpace(s[i]);
      }
    }
    TrimEmptyIffAllSpace(s);
    assert !IsSpace(s[0]);
  }

  // ---------------------------------------------------------------------
  // Validation

  /** The message `validateForm` sets for one field, if any. */
  function FieldError(d: FormData, f: Field): Option<string> {
    match f
    case Username => if Trim(d.username) == "" then Some(UsernameRequired) else None
    case Email =>
      if Trim(d.email) == "" then Some(EmailRequired)
      else if !IsEmsiEmail(d.email) then Some(EmailFormat)
      else None
    case UserType => if d.userType == "" then Some(UserTypeRequired) else None
    case Password =>
      if d.password == "" then Some(PasswordRequired)
      else if Utf16Length(d.password) < MinPasswordLength then Some(PasswordTooShort)
      else None
    case ConfirmPassword => if d.password != d.confirmPassword then Some(PasswordMismatch) else None
  }

  /** The username is required once surrounding whitespace is dropped. */
  lemma UsernameRule(d: FormData)
    ensures FieldError(d, Username).Some? <==> AllSpace(d.username)
  {
    TrimEmptyIffAllSpace(d.username);
  }

  /** The e-mail is required when blank; otherwise the untrimmed value must
      match the campus format. */
  lemma EmailRule(d: FormData)
    ensures FieldError(d, Email) == Some(EmailRequired) <==> AllSpace(d.email)
    ensures FieldError(d, Email) == Some(EmailFormat) <==> !AllSpace(d.email) && !MatchesEmsiRegex(d.email)
    ensures FieldError(d, Email) == None <==> MatchesEmsiRegex(d.email)
  {
    TrimEmptyIffAllSpace(d.email);
    IsEmsiEmailIffRegex(d.email);
    if IsEmsiEmail(d.email) {
      EmsiEmailHasNoSpace(d.email);
    }
  }

  /** A missing password is reported as missing; a present one shorter than
      six UTF-16 code units (`.length`) as too short; the mismatch is judged
      on its own. */
  lemma PasswordRules(d: FormData)
    ensures FieldError(d, Password) == Some(PasswordRequired) <==> |d.password| == 0
    ensures FieldError(d, Password) == Some(PasswordTooShort) <==>
              0 < |d.password| && Utf16Length(d.password) < MinPasswordLength
    ensures FieldError(d, ConfirmPassword).Some? <==> d.password != d.confirmPassword
  {
  }

  /** `.length` counts code units, so three characters outside the Basic
      Multilingual Plane already make a long enough password, while a
      password of five plain characters is too short. */
  lemma PasswordLengthInCodeUnits(d: FormData)
    ensures d.password == "\U{1F600}\U{1F600}\U{1F600}" ==> FieldError(d, Password).None?
    ensures d.password == "abcde" ==> FieldError(d, Password) == Some(PasswordTooShort)
  {
    if d.password == "\U{1F600}\U{1F600}\U{1F600}" {
      var smile: string := "\U{1F600}";
      assert Utf16Length(smile) == 2 by { assert smile[1..] == []; }
      assert d.password == smile + smile + smile;
      Utf16LengthConcat(smile, smile);
      Utf16LengthConcat(smile + smile, smile);
    }
    if d.password == "abcde" {
      Utf16LengthBmp(d.password);
    }
  }

  /** The error record `validateForm` builds. */
  function AllErrors(d: FormData): (e: Errors)
    ensures forall f: Field :: ErrorOf(e, f) == FieldError(d, f)
  {
    var e := Errors(FieldError(d, Username), FieldError(d, Email), FieldError(d, UserType),
                    FieldError(d, Password), FieldError(d, ConfirmPassword));
    assert forall f: Field :: ErrorOf(e, f) == FieldError(d, f) by {
      forall f: Field ensures ErrorOf(e, f) == FieldError(d, f) {
        FieldCases(f);
      }
    }
    e
  }

  lemma FieldCases(f: Field)
    ensures f == Username || f == Email || f == UserType || f == Password || f == ConfirmPassword
  {
  }

  /** The form is valid exactly when every rule holds. */
  lemma ValidIff(d: FormData)
    ensures IsValid(AllErrors(d)) <==>
            !AllSpace(d.username) && MatchesEmsiRegex(d.email) && d.userType != ""
            && Utf16Length(d.password) >= MinPasswordLength && d.password == d.confirmPassword
  {
    UsernameRule(d);
    EmailRule(d);
    PasswordRules(d);
    var e := AllErrors(d);
    assert e.username == FieldError(d, Username) && e.email == FieldError(d, Email);
    assert e.userType == FieldError(d, UserType) && e.password == FieldError(d, Password);
    assert e.confirmPassword == FieldError(d, ConfirmPassword);
  }

  // ---------------------------------------------------------------------
  // The steps of `validateForm` that take more than one test

  /** The username step: a blank name is missing. */
  method CheckUsername(d: FormData) returns (message: Option<string>)
    ensures message == FieldError(d, Username)
  {
    message := None;
    if Trim(d.username) == "" {
      message := Some(UsernameRequired);
    }
  }

  /** The e-mail step: a blank address is missing, otherwise the address as
      typed must have the campus format. */
  method CheckEmail(d: FormData) returns (message: Option<string>)
    ensures message == FieldError(d, Email)
  {
    message := None;
    if Trim(d.email) == "" {
      message := Some(EmailRequired);
    } else if !IsEmsiEmail(d.email) {
      message := Some(EmailFormat);
    }
  }

  /** The password step: an empty password is missing, a short one too
      short. */
  method CheckPassword(d: FormData) returns (message: Option<string>)
    ensures message == FieldError(d, Password)
  {
    message := None;
    if d.password == "" {
      message := Some(PasswordRequired);
    } else if Utf16Length(d.password) < MinPasswordLength {
      message := Some(PasswordTooShort);
    }
  }

  // ---------------------------------------------------------------------
  // The form

  class RegisterForm {
    var formData: FormData
    var errors: Errors
    var isLoading: bool

    constructor()
      ensures formData == EmptyForm && errors == NoErrors && !isLoading
    {
      formData := EmptyForm;
      errors := NoErrors;
      isLoading := false;
    }

    /** `handleChange` on field `f` (and `handleSelectChange` for the user
        type): the field takes the value and only its error is cleared. */
    method Change(f: Field, v: string)
      modifies this
      ensures formData == Set(old(formData), f, v)
      ensures !Truthy(ErrorOf(errors, f))
      ensures Truthy(ErrorOf(old(errors), f)) ==> errors == ClearError(old(errors), f)
      ensures !Truthy(ErrorOf(old(errors), f)) ==> errors == old(errors)
      ensures isLoading == old(isLoading)
    {
      formData := Set(formData, f, v);
      if Truthy(ErrorOf(errors, f)) {
        errors := ClearError(errors, f);
      }
    }

    /** `handleSelectChange`: the same update, for the user type. */
    method SelectChange(v: string)
      modifies this
      ensures formData == Set(old(formData), UserType, v)
      ensures !Truthy(errors.userType)
      ensures Truthy(old(errors).userType) ==> errors == ClearError(old(errors), UserType)
      ensures !Truthy(old(errors).userType) ==> errors == old(errors)
      ensures isLoading == old(isLoading)
    {
      Change(UserType, v);
    }

    /** `validateForm`: a fresh error record is filled rule by rule and
        replaces the old one; the form is valid when no rule fired. */
    method Validate() returns (valid: bool)
      modifies this
      ensures errors == AllErrors(formData)
      ensures valid <==> IsValid(errors)
      ensures formData == old(formData) && isLoading == old(isLoading)
    {
      var d := formData;
      var username := CheckUsername(d);
      var email := CheckEmail(d);
      var userType := None;
      if d.userType == "" {
        userType := Some(UserTypeRequired);
      }
      var password := CheckPassword(d);
      var confirmPassword := None;
      if d.password != d.confirmPassword {
        confirmPassword := Some(PasswordMismatch);
      }
      var newErrors := Errors(username, email, userType, password, confirmPassword);
      assert newErrors == AllErrors(d) by {
        assert AllErrors(d) == Errors(FieldError(d, Username), FieldError(d, Email), FieldError(d, UserType),
                                      FieldError(d, Password), FieldError(d, ConfirmPassword));
      }
      errors := newErrors;
      valid := errors == NoErrors;
    }

    /** The guard of `handleSubmit`: an invalid form stops there; a valid one
        starts loading. */
    method BeginSubmit() returns (proceed: bool)
      modifies this
      ensures errors == AllErrors(formData)
      ensures proceed <==> IsValid(errors)
      ensures proceed ==> isLoading
      ensures !proceed ==> isLoading == old(isLoading)
      ensures formData == old(formData)
    {
      proceed := Validate();
      if proceed {
        isLoading := true;
      }
    }
  }
}
