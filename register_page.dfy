/** The register page's client-side rules: the password strength meter, the
    form schema (the server's registration schema plus a confirmation field
    that must repeat the password) and the terms gate in front of the request. */
module RegisterPage {
  import opened Wrappers
  import opened Text
  import opened Schema

  // ---------------------------------------------------------------- strength meter

  function Indicator(b: bool): nat { if b then 1 else 0 }

  /** The strength score: one point for each of the five criteria the password
      meets (length at least 8, an upper-case letter, a lower-case letter, a
      digit, a character that is none of these). */
  function Strength(p: string): (r: nat)
    ensures r <= 5
    ensures r == 5 <==> |p| >= 8 && HasUpper(p) && HasLower(p) && HasDigit(p) && HasNonAlnum(p)
  {
    Indicator(|p| >= 8) + Indicator(HasUpper(p)) + Indicator(HasLower(p))
      + Indicator(HasDigit(p)) + Indicator(HasNonAlnum(p))
  }

  /** getPasswordStrength: five tests, each adding one to a running count. */
  method GetPasswordStrength(password: string) returns (strength: nat)
    ensures strength == Strength(password)
    ensures strength <= 5
  {
    strength := 0;
    if |password| >= 8 { strength := strength + 1; }
    if HasUpper(password) { strength := strength + 1; }
    if HasLower(password) { strength := strength + 1; }
    if HasDigit(password) { strength := strength + 1; }
    if HasNonAlnum(password) { strength := strength + 1; }
  }

  /** Every character meets one of the four character criteria, so only the
      empty password scores 0. */
  lemma StrengthZeroOnlyWhenEmpty(p: string)
    ensures Strength(p) == 0 <==> p == ""
  {
    if p != "" {
      assert IsUpper(p[0]) || IsLower(p[0]) || IsDigit(p[0]) || !IsAlnum(p[0]);
    }
  }

  /** A password the registration schema accepts scores 5: its special
      characters are all non-alphanumeric. */
  lemma {:induction false} PolicyPasswordScoresFive(p: string)
    requires PasswordPolicy(p)
    ensures Strength(p) == 5
  {
    var i :| 0 <= i < |p| && p[i] in Specials;
    assert !IsAlnum(p[i]);
  }

  /** The converse fails: a symbol outside the schema's list scores the point
      but does not satisfy the policy. */
  lemma FullStrengthOutsidePolicy()
    ensures Strength("Aa1~aaaa") == 5 && !PasswordPolicy("Aa1~aaaa")
  {
    var p := "Aa1~aaaa";
    assert IsUpper(p[0]) && IsLower(p[1]) && IsDigit(p[2]) && !IsAlnum(p[3]);
    assert !HasSpecial(p) by {
      forall i | 0 <= i < |p| ensures p[i] !in Specials {
        assert p[i] in {'A', 'a', '1', '~'};
      }
    }
  }

  datatype Bar = Strong | Medium | Weak | NoBar

  /** The strength bar's class for a score. */
  function StrengthBar(strength: nat): (r: Bar)
    ensures r == Strong <==> strength >= 3
    ensures r == Medium <==> strength == 2
    ensures r == Weak <==> strength == 1
    ensures r == NoBar <==> strength == 0
  {
    if strength >= 3 then Strong
    else if strength >= 2 then Medium
    else if strength >= 1 then Weak
    else NoBar
  }

  // ---------------------------------------------------------------- the form

  /** The form's fields; react-hook-form starts each at "" so all are strings. */
  datatype RegisterForm = RegisterForm(username: string, first_name: string, last_name: string,
                                       password: string, confirm_password: string)

  const PasswordsDoNotMatch := "Passwords do not match"

  function BodyOf(form: RegisterForm): RegisterBody {
    RegisterBody(Str(form.username), Str(form.first_name), Str(form.last_name), Str(form.password))
  }

  /** The form schema's issues: the registration schema's, the password rules
      applied to confirm_password, then the refinement. With every member a
      string zod runs the refinement even when other checks failed. */
  function FormIssues(form: RegisterForm, isEmail: string -> bool): (r: seq<Issue>)
    ensures var server := RegisterIssues(BodyOf(form), isEmail);
            && |server| <= |r| && r[..|server|] == server
            && (forall i :: |server| <= i < |r| ==> r[i].path == "confirm_password")
            && (|server| < |r| <==> !PasswordPolicy(form.confirm_password) || form.password != form.confirm_password)
    ensures form.password != form.confirm_password ==> r[|r| - 1] == Issue("confirm_password", PasswordsDoNotMatch)
  {
    PasswordChecksMeaning(form.confirm_password, isEmail);
    RegisterIssues(BodyOf(form), isEmail)
      + CheckIssues("confirm_password", PasswordChecks, form.confirm_password, isEmail)
      + (if form.password != form.confirm_password then [Issue("confirm_password", PasswordsDoNotMatch)] else [])
  }

  /** A confirmation that differs from the password is always reported on confirm_password. */
  lemma MismatchIsReported(form: RegisterForm, isEmail: string -> bool)
    requires form.password != form.confirm_password
    ensures Issue("confirm_password", PasswordsDoNotMatch) in FormIssues(form, isEmail)
    ensures FormIssues(form, isEmail) != []
  {
    var issues := FormIssues(form, isEmail);
    assert issues[|issues| - 1] == Issue("confirm_password", PasswordsDoNotMatch);
  }

  /** The form passes exactly when its four server fields form a valid
      registration and the confirmation repeats the password. */
  lemma FormValidExactly(form: RegisterForm, isEmail: string -> bool)
    ensures FormIssues(form, isEmail) == [] <==>
              ValidRegistration(BodyOf(form), isEmail) && form.password == form.confirm_password
  {
    var r := ParseRegister(BodyOf(form), isEmail);
    PasswordChecksMeaning(form.confirm_password, isEmail);
  }

  /** onSubmit behind handleSubmit: nothing is sent unless the form is valid
      and the terms are agreed; then the payload is the form without
      confirm_password, and it is one the server's schema accepts unchanged. */
  function SubmitPayload(form: RegisterForm, agreeTerms: bool, isEmail: string -> bool): (r: Option<RegisterUser>)
    ensures r.Some? <==> FormIssues(form, isEmail) == [] && agreeTerms
    ensures r.Some? ==> r.value == RegisterUser(form.username, form.first_name, form.last_name, form.password)
    ensures r.Some? ==> ParseRegister(BodyOf(form), isEmail) == Ok(r.value)
  {
    FormValidExactly(form, isEmail);
    if FormIssues(form, isEmail) != [] || !agreeTerms then None
    else Some(RegisterUser(form.username, form.first_name, form.last_name, form.password))
  }
}
