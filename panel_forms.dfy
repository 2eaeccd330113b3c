/**
 * The panel's login form: a login and a password, both Django CharFields
 * (whitespace stripped, length bounds, no NUL character), and a clean()
 * that demands a lowercase letter, an uppercase letter, a digit and a
 * punctuation character in the password.
 */
module PanelForms {
  import opened Validation
  import opened Strings

  /** A submitted field: absent from the POST data, or a string. */
  datatype Input = Missing | Sent(s: string)

  // ------------------------------------------------------- CharField

  predicate HasNul(s: string) {
    exists i :: 0 <= i < |s| && s[i] == '\U{0}'
  }

  /** A cleaned CharField: its errors, or its value in cleaned_data. */
  datatype FieldResult = FieldResult(errors: seq<ErrorCode>, value: Option<string>)

  /**
   * `forms.CharField(min_length, max_length, empty_value).clean`: strip, map
   * an empty value to `empty_value`, raise `required` if that is still empty,
   * otherwise run the length validators and the NUL-character validator,
   * collecting every failure.
   */
  function CleanCharField(v: Input, minLength: nat, maxLength: nat, emptyValue: string): (r: FieldResult)
    ensures r.errors == [] <==> r.value.Some?
    ensures r.value.Some? ==> minLength <= |r.value.value| <= maxLength && !HasNul(r.value.value)
    ensures r.value.Some? && v.Sent? && Strip(v.s) != "" ==> r.value.value == Strip(v.s)
    ensures r.value.Some? && (v.Missing? || Strip(v.s) == "") ==> r.value.value == emptyValue
    ensures (v.Missing? || Strip(v.s) == "") && emptyValue == "" ==> r.errors == [Required]
  {
    var text := if v.Missing? then "" else Strip(v.s);
    var value := if text == "" then emptyValue else text;
    if value == "" then FieldResult([Required], None)
    else
      var errs :=
        (if |value| < minLength then [MinLength] else [])
        + (if |value| > maxLength then [MaxLength] else [])
        + (if HasNul(value) then [NullCharactersNotAllowed] else []);
      if errs == [] then FieldResult([], Some(value)) else FieldResult(errs, None)
  }

  // ------------------------------------------------------ PanelLoginForm

  const LoginMin: nat := 1
  const LoginMax: nat := 1024
  const PasswordMin: nat := 8
  const PasswordMax: nat := 1024

  predicate IsAsciiLower(c: char) { 'a' <= c <= 'z' }
  predicate IsAsciiUpper(c: char) { 'A' <= c <= 'Z' }
  predicate IsAsciiDigit(c: char) { '0' <= c <= '9' }

  /** `string.punctuation` */
  predicate IsPunctuation(c: char) {
    '!' <= c <= '/' || ':' <= c <= '@' || '[' <= c <= '`' || '{' <= c <= '~'
  }

  /** The complexity rule of PanelLoginForm.clean: one character of each of the four classes. */
  predicate StrongPassword(p: string) {
    && (exists i :: 0 <= i < |p| && IsAsciiLower(p[i]))
    && (exists i :: 0 <= i < |p| && IsAsciiUpper(p[i]))
    && (exists i :: 0 <= i < |p| && IsAsciiDigit(p[i]))
    && (exists i :: 0 <= i < |p| && IsPunctuation(p[i]))
  }

  /** The four character classes are disjoint, so a strong password is at least four characters long. */
  lemma StrongPasswordLength(p: string)
    requires StrongPassword(p)
    ensures |p| >= 4
  {
    var a :| 0 <= a < |p| && IsAsciiLower(p[a]);
    var b :| 0 <= b < |p| && IsAsciiUpper(p[b]);
    var c :| 0 <= c < |p| && IsAsciiDigit(p[c]);
    var d :| 0 <= d < |p| && IsPunctuation(p[d]);
    assert a != b && a != c && a != d && b != c && b != d && c != d;
  }

  datatype LoginFormResult = LoginFormResult(
    loginErrors: seq<ErrorCode>,
    passwordErrors: seq<ErrorCode>,
    formErrors: seq<ErrorCode>,
    cleanedData: map<string, string>)
  {
    predicate IsValid() {
      loginErrors == [] && passwordErrors == [] && formErrors == []
    }
  }

  function CleanLogin(v: Input): FieldResult {
    CleanCharField(v, LoginMin, LoginMax, "N/A")
  }

  function CleanPassword(v: Input): FieldResult {
    CleanCharField(v, PasswordMin, PasswordMax, "")
  }

  /**
   * `PanelLoginForm(data).full_clean()`: both fields, then clean(), which
   * reads the cleaned password (or '' when the field failed) and raises when
   * it misses one of the four character classes; cleaned_data is returned as
   * it was.
   */
  function CleanLoginForm(login: Input, password: Input): (r: LoginFormResult)
    ensures r.loginErrors == CleanLogin(login).errors && r.passwordErrors == CleanPassword(password).errors
    ensures r.formErrors == [] <==> CleanPassword(password).value.Some? && StrongPassword(CleanPassword(password).value.value)
    ensures r.formErrors != [] ==> r.formErrors == [PasswordTooWeak]
    ensures "login" in r.cleanedData <==> CleanLogin(login).value.Some?
    ensures "password" in r.cleanedData <==> CleanPassword(password).value.Some?
    ensures "login" in r.cleanedData ==> r.cleanedData["login"] == CleanLogin(login).value.value
    ensures "password" in r.cleanedData ==> r.cleanedData["password"] == CleanPassword(password).value.value
  {
    var l := CleanLogin(login);
    var p := CleanPassword(password);
    var cleaned :=
      if l.value.Some? && p.value.Some? then map["login" := l.value.value, "password" := p.value.value]
      else if l.value.Some? then map["login" := l.value.value]
      else if p.value.Some? then map["password" := p.value.value]
      else map[];
    var pw := if p.value.Some? then p.value.value else "";
    LoginFormResult(l.errors, p.errors, if StrongPassword(pw) then [] else [PasswordTooWeak], cleaned)
  }

  /**
   * A valid form carries a stripped password of 8 to 1024 characters holding
   * all four character classes, and a login of at most 1024 characters.
   */
  lemma ValidLoginForm(login: Input, password: Input)
    requires CleanLoginForm(login, password).IsValid()
    ensures var d := CleanLoginForm(login, password).cleanedData;
      && "password" in d && PasswordMin <= |d["password"]| <= PasswordMax && StrongPassword(d["password"])
      && "login" in d && LoginMin <= |d["login"]| <= LoginMax
  {
  }

  /** A missing or blank password fails as a field (`required`) and fails the complexity rule. */
  lemma MissingPasswordRejected(login: Input, password: Input)
    requires password.Missing? || Strip(password.s) == ""
    ensures CleanLoginForm(login, password).passwordErrors == [Required]
    ensures CleanLoginForm(login, password).formErrors == [PasswordTooWeak]
  {
    assert !StrongPassword("");
  }

  /** A missing or blank login is never `required`: it becomes "N/A". */
  lemma BlankLoginBecomesPlaceholder(login: Input, password: Input)
    requires login.Missing? || Strip(login.s) == ""
    ensures CleanLoginForm(login, password).loginErrors == []
    ensures CleanLoginForm(login, password).cleanedData["login"] == "N/A"
  {
    assert !HasNul("N/A");
  }

  /** A non-blank field without surrounding whitespace or NUL, within its bounds, is cleaned to itself. */
  lemma PlainFieldKept(s: string, minLength: nat, maxLength: nat, emptyValue: string)
    requires s != [] && !IsSpace(s[0]) && !IsSpace(s[|s| - 1])
    requires minLength <= |s| <= maxLength && !HasNul(s)
    ensures CleanCharField(Sent(s), minLength, maxLength, emptyValue) == FieldResult([], Some(s))
  {
    PlainStrip(s);
  }

  /** "Abcdef1!" passes as a password, and "jan" as a login. */
  lemma StrongPasswordAccepted()
    ensures CleanLoginForm(Sent("jan"), Sent("Abcdef1!")).IsValid()
  {
    var p := "Abcdef1!";
    assert !HasNul(p) && !HasNul("jan");
    PlainFieldKept(p, PasswordMin, PasswordMax, "");
    PlainFieldKept("jan", LoginMin, LoginMax, "N/A");
    assert IsAsciiLower(p[1]) && IsAsciiUpper(p[0]) && IsAsciiDigit(p[6]) && IsPunctuation(p[7]);
  }

  /** "Abcdefg!" has the right length but no digit, so clean() refuses it. */
  lemma DigitlessPasswordRejected()
    ensures CleanLoginForm(Sent("jan"), Sent("Abcdefg!")).formErrors == [PasswordTooWeak]
  {
    var q := "Abcdefg!";
    assert !HasNul(q);
    PlainFieldKept(q, PasswordMin, PasswordMax, "");
    assert forall i :: 0 <= i < |q| ==> !IsAsciiDigit(q[i]);
  }
}
