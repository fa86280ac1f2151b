/**
 * The field cleaners of the sign-up form (`CustomUserCreationForm` in
 * app_sigrams/forms.py).  A cleaner receives the field's value from
 * `cleaned_data` (None when absent) and either returns the cleaned value or
 * raises a validation error.
 *
 * The name cleaners call `re.match`, but the module never imports `re`: as
 * written, any non-empty name raises `NameError`.  Both the written cleaner
 * and the evidently intended one are modelled; the rest of the model uses
 * the intended one.
 */
module SignUpForm {
  import opened Wrappers
  import opened Text
  import opened Models
  import opened Registry
  import opened Validators

  datatype FormCode = InvalidFirstName | InvalidLastName | DuplicateEmail | PasswordRejected(reason: Code)

  /** What a `clean_<field>` hook does: return a value, raise `ValidationError`, or crash. */
  datatype Cleaned<+T> = Returned(value: T) | Raised(code: FormCode) | NameErrorRaised

  // ===== clean_first_name / clean_last_name =====

  /** The name cleaners as written: the unbound `re` is reached for every non-empty name. */
  function CleanNameAsWritten(value: Option<string>): (r: Cleaned<Option<string>>)
    ensures r == NameErrorRaised <==> TextOf(value) != []
    ensures r != NameErrorRaised ==> r == Returned(value)
  {
    if value.Some? && value.value != "" then NameErrorRaised else Returned(value)
  }

  /**
   * The name cleaners as intended: an empty or missing name passes unchanged;
   * otherwise the whole value must be letters, accented vowels, ñ and
   * whitespace, and is returned title-cased.
   */
  function CleanName(value: Option<string>, invalid: FormCode): (r: Cleaned<Option<string>>)
    ensures r != NameErrorRaised
    ensures TextOf(value) == [] ==> r == Returned(value)
    ensures TextOf(value) != [] ==> (r.Returned? <==> AllNameChars(value.value))
    ensures TextOf(value) != [] && r.Returned? ==>
      r.value.Some? && |r.value.value| == |value.value| && IsTitled(r.value.value) &&
      LowerStr(r.value.value) == LowerStr(value.value)
    ensures r.Raised? ==> r.code == invalid
  {
    if value.Some? && value.value != "" then
      if AllNameChars(value.value) then Returned(Some(Title(value.value))) else Raised(invalid)
    else Returned(value)
  }

  function CleanFirstName(value: Option<string>): (r: Cleaned<Option<string>>)
    ensures r.Raised? ==> r.code == InvalidFirstName
  {
    CleanName(value, InvalidFirstName)
  }

  function CleanLastName(value: Option<string>): (r: Cleaned<Option<string>>)
    ensures r.Raised? ==> r.code == InvalidLastName
  {
    CleanName(value, InvalidLastName)
  }

  /** The written and the intended cleaners part ways on every valid non-empty name. */
  lemma CleanNameDefect(name: string)
    requires name != [] && AllNameChars(name)
    ensures CleanNameAsWritten(Some(name)) == NameErrorRaised
    ensures CleanFirstName(Some(name)) == Returned(Some(Title(name)))
    ensures CleanLastName(Some(name)) == Returned(Some(Title(name)))
  {
  }

  /** "juan pérez" is rejected as written and becomes "Juan Pérez" as intended. */
  lemma CleanNameExample()
    ensures CleanNameAsWritten(Some("juan pérez")) == NameErrorRaised
    ensures CleanFirstName(Some("juan pérez")) == Returned(Some("Juan Pérez"))
  {
    var s := "juan pérez";
    assert AllNameChars(s) by {
      forall i | 0 <= i < |s| ensures IsNameChar(s[i]) {}
    }
    var t := "Juan Pérez";
    assert LowerStr(t) == LowerStr(s) by {
      assert |LowerStr(t)| == |LowerStr(s)|;
      forall i | 0 <= i < |s| ensures LowerStr(t)[i] == LowerStr(s)[i] {}
    }
    assert IsTitled(t) by {
      forall i | 0 <= i < |t| ensures WordCaseAt(t, i) {}
    }
    TitleUnique(s, t);
  }

  /** A cleaned name passes the cleaner again unchanged. */
  lemma CleanNameStable(name: string, invalid: FormCode)
    requires CleanName(Some(name), invalid).Returned?
    ensures CleanName(CleanName(Some(name), invalid).value, invalid) == CleanName(Some(name), invalid)
  {
    if name != [] {
      var t := Title(name);
      TitleKeepsSpaces(name);
      forall i | 0 <= i < |t| ensures IsNameChar(t[i]) {
        assert IsNameChar(name[i]);
      }
      TitleIdempotent(name);
    }
  }

  // ===== clean_email =====

  /** `clean_email`: a non-empty address some user already has is refused. */
  function CleanEmail(users: map<int, User>, email: Option<string>): (r: Cleaned<Option<string>>)
    ensures r != NameErrorRaised
    ensures r.Raised? <==> TextOf(email) != [] && EmailTaken(users, email.value)
    ensures r.Raised? ==> r.code == DuplicateEmail
    ensures r.Returned? ==> r.value == email
  {
    if email.Some? && email.value != "" && exists k :: k in users && users[k].email == email.value then
      Raised(DuplicateEmail)
    else Returned(email)
  }

  // ===== clean_password1 =====

  /** `clean_password1`: a non-empty password must pass the default `PasswordValidator()`. */
  function CleanPassword1(value: Option<string>): (r: Cleaned<Option<string>>)
    ensures r != NameErrorRaised
    ensures TextOf(value) == [] ==> r == Returned(value)
    ensures TextOf(value) != [] ==> (r.Returned? <==> Password(DefaultPolicy, value.value).Valid?)
    ensures r.Returned? ==> r.value == value
    ensures r.Raised? ==> TextOf(value) != [] && r.code == PasswordRejected(Password(DefaultPolicy, value.value).code)
  {
    if value.Some? && value.value != "" then
      var check := Password(DefaultPolicy, value.value);
      if check.Invalid? then Raised(PasswordRejected(check.code)) else Returned(value)
    else Returned(value)
  }

  /** Spelled out: at least 8 characters with an upper, a lower, a digit and a special character. */
  lemma CleanPassword1Accepts(value: string)
    requires value != []
    ensures CleanPassword1(Some(value)).Returned? <==>
      |value| >= 8 && HasUpper(value) && HasLower(value) && HasDigit(value) && HasSpecial(value)
  {
    DefaultPolicyAccepts(value);
  }
}
