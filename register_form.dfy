/** The sign-up form's schema. Every input of the form is a string (an empty
    input is ""). The field checks run in field order and every failing check
    adds its issue; the password confirmation is compared afterwards. The
    email format check is the library's and is a parameter. */
module RegisterForm {
  import opened Base

  datatype Form = Form(name: string, email: string, password: string, confirmPassword: string)

  const NameTooShort: string := "Name must be at least 2 characters"
  const NameTooLong: string := "Name too long"
  const InvalidEmail: string := "Invalid email address"
  const PasswordTooShort: string := "Password must be at least 8 characters"
  const NeedsUppercase: string := "Password must contain at least one uppercase letter"
  const NeedsLowercase: string := "Password must contain at least one lowercase letter"
  const NeedsDigit: string := "Password must contain at least one number"
  const PasswordsDiffer: string := "Passwords don't match"

  /** A character class test `/[lo-hi]/`: some character of `s` lies in the
      range. */
  function HasCharIn(s: string, lo: char, hi: char): (b: bool)
    ensures b <==> exists i :: 0 <= i < |s| && lo <= s[i] <= hi
  {
    if s == [] then false
    else if lo <= s[0] <= hi then true
    else
      var b := HasCharIn(s[1..], lo, hi);
      assert b ==> exists i :: 0 <= i < |s| && lo <= s[i] <= hi by {
        if b {
          var i :| 0 <= i < |s[1..]| && lo <= s[1..][i] <= hi;
          assert s[i + 1] == s[1..][i];
        }
      }
      assert (exists i :: 0 <= i < |s| && lo <= s[i] <= hi) ==> b by {
        if exists i :: 0 <= i < |s| && lo <= s[i] <= hi {
          var i :| 0 <= i < |s| && lo <= s[i] <= hi;
          assert i > 0;
          assert s[1..][i - 1] == s[i];
        }
      }
      b
  }

  /** What the password rules accept: eight UTF-16 code units or more, with an
      upper-case letter, a lower-case letter and a digit somewhere. */
  ghost predicate StrongPassword(p: string) {
    && Utf16Length(p) >= 8
    && (exists i :: 0 <= i < |p| && 'A' <= p[i] <= 'Z')
    && (exists i :: 0 <= i < |p| && 'a' <= p[i] <= 'z')
    && (exists i :: 0 <= i < |p| && '0' <= p[i] <= '9')
  }

  function NameIssues(name: string): seq<Issue> {
    (if Utf16Length(name) < 2 then [Issue("name", NameTooShort)] else [])
    + (if Utf16Length(name) > 50 then [Issue("name", NameTooLong)] else [])
  }

  function EmailIssues(email: string, isEmail: string -> bool): seq<Issue> {
    if isEmail(email) then [] else [Issue("email", InvalidEmail)]
  }

  /** The password's checks, each reported on its own. */
  function PasswordIssues(p: string): (r: seq<Issue>)
    ensures r == [] <==> StrongPassword(p)
    ensures forall i :: 0 <= i < |r| ==> r[i].path == "password"
  {
    (if Utf16Length(p) < 8 then [Issue("password", PasswordTooShort)] else [])
    + (if !HasCharIn(p, 'A', 'Z') then [Issue("password", NeedsUppercase)] else [])
    + (if !HasCharIn(p, 'a', 'z') then [Issue("password", NeedsLowercase)] else [])
    + (if !HasCharIn(p, '0', '9') then [Issue("password", NeedsDigit)] else [])
  }

  function ConfirmIssues(f: Form): seq<Issue> {
    if f.password == f.confirmPassword then [] else [Issue("confirmPassword", PasswordsDiffer)]
  }

  /** `registerSchema.parse`: valid exactly when the name has 2 to 50
      UTF-16 code units, the email passes the format check, the password is strong
      and the confirmation repeats it; a mismatch is reported on the
      confirmation field, after every field issue. */
  function Parse(f: Form, isEmail: string -> bool): (r: Parsed<Form>)
    ensures r.Valid? <==>
      2 <= Utf16Length(f.name) <= 50 && isEmail(f.email) && StrongPassword(f.password) && f.password == f.confirmPassword
    ensures r.Valid? ==> r.value == f
    ensures r.Invalid? ==> |r.issues| > 0
    ensures f.password != f.confirmPassword ==>
      r.Invalid? && r.issues[|r.issues| - 1] == Issue("confirmPassword", PasswordsDiffer)
  {
    var issues := NameIssues(f.name) + EmailIssues(f.email, isEmail) + PasswordIssues(f.password) + ConfirmIssues(f);
    if issues == [] then Valid(f) else Invalid(issues)
  }

  /** A password of eight code units or more is refused for each missing
      class with that class's own message, whatever else it contains. */
  lemma {:induction false} MissingDigitReported(f: Form, isEmail: string -> bool)
    requires Utf16Length(f.password) >= 8 && forall i :: 0 <= i < |f.password| ==> !('0' <= f.password[i] <= '9')
    ensures Parse(f, isEmail).Invalid?
    ensures Issue("password", NeedsDigit) in Parse(f, isEmail).issues
  {
    var issues := NameIssues(f.name) + EmailIssues(f.email, isEmail) + PasswordIssues(f.password) + ConfirmIssues(f);
    assert !HasCharIn(f.password, '0', '9');
    assert Issue("password", NeedsDigit) in PasswordIssues(f.password);
    assert issues == (NameIssues(f.name) + EmailIssues(f.email, isEmail)) + PasswordIssues(f.password) + ConfirmIssues(f);
  }

  /** A concrete strong password: eight characters with every class. */
  lemma {:induction false} ExampleStrongPassword()
    ensures StrongPassword("Passw0rd")
  {
    BmpLength("Passw0rd");
    assert 'P' == "Passw0rd"[0];
    assert 'a' == "Passw0rd"[1];
    assert '0' == "Passw0rd"[5];
  }

  /** Length is counted in UTF-16 code units, as the browser counts it: three
      letters and digits followed by three characters outside the Basic
      Multilingual Plane make six characters but nine code units, and that is
      long enough. */
  lemma {:induction false} AstralPasswordLongEnough(tail: string)
    requires |tail| == 3 && forall i :: 0 <= i < |tail| ==> tail[i] as int >= 0x1_0000
    ensures |"Aa1" + tail| == 6
    ensures StrongPassword("Aa1" + tail)
  {
    var p := "Aa1" + tail;
    BmpLength("Aa1");
    AstralLength(tail);
    Utf16LengthAppend("Aa1", tail);
    assert p[0] == 'A' && p[1] == 'a' && p[2] == '1';
  }
}
