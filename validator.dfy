/**
 * The credential validators of the login form. Each returns the empty string
 * when the input is acceptable and otherwise the message for the first rule
 * it breaks.
 */
module Validator {
  import opened Wrappers
  import opened Text

  /** The shortest password `validatePassword` accepts (kept for older forms). */
  const MIN_LENGTH: nat := 6
  /** The shortest password `validatePasswordStrong` accepts (password reset). */
  const STRONG_MIN_LENGTH: nat := 8

  const EMAIL_REQUIRED := "Email is required"
  const EMAIL_INVALID := "Invalid email format"
  const PASSWORD_REQUIRED := "Password is required"
  const CONFIRM_REQUIRED := "Please confirm your password"
  const CONFIRM_MISMATCH := "Passwords do not match"
  const MISSING_PREFIX := "Must contain at least one "

  function TooShort(min: nat): string {
    "Password must be at least " + DecimalString(min) + " characters"
  }

  // ---------------------------------------------------------------------------
  // E-mail

  /** `[^\s@]+`: non-empty, with no white space and no `@`. */
  predicate EmailPart(p: string) {
    |p| > 0 && NoSpace(p) && '@' !in p
  }

  /**
   * `/^[^\s@]+@[^\s@]+\.[^\s@]+$/`: the whole string splits, at an `@` and a
   * later `.`, into three such parts.
   */
  predicate EmailRegexMatches(s: string) {
    exists a, d | 0 <= a < d < |s| ::
      s[a] == '@' && s[d] == '.' && EmailPart(s[..a]) && EmailPart(s[a + 1..d]) && EmailPart(s[d + 1..])
  }

  /**
   * The same language described directly: no white space, exactly one `@`
   * and not at the start, and after it a `.` that is neither the first nor
   * the last character of the domain.
   */
  predicate EmailShape(s: string) {
    NoSpace(s)
    && match IndexOf(s, '@')
       case None => false
       case Some(a) => 0 < a && '@' !in s[a + 1..] && exists d | a + 1 < d < |s| - 1 :: s[d] == '.'
  }

  /** What the e-mail pattern accepts is exactly the direct description. */
  lemma EmailRegexIffShape(s: string)
    ensures EmailRegexMatches(s) <==> EmailShape(s)
  {
    if EmailRegexMatches(s) {
      var a, d :| 0 <= a < d < |s| && s[a] == '@' && s[d] == '.'
        && EmailPart(s[..a]) && EmailPart(s[a + 1..d]) && EmailPart(s[d + 1..]);
      RegexGivesShape(s, a, d);
    }
    if EmailShape(s) {
      ShapeGivesRegex(s);
    }
  }

  lemma RegexGivesShape(s: string, a: nat, d: nat)
    requires 0 <= a < d < |s| && s[a] == '@' && s[d] == '.'
    requires EmailPart(s[..a]) && EmailPart(s[a + 1..d]) && EmailPart(s[d + 1..])
    ensures EmailShape(s)
  {
    var local, domain, tld := s[..a], s[a + 1..d], s[d + 1..];
    assert s == local + [s[a]] + domain + [s[d]] + tld;
    forall k | 0 <= k < |s| ensures !IsSpace(s[k]) {
      if k < a {
        assert s[k] == local[k];
      } else if a < k < d {
        assert s[k] == domain[k - a - 1];
      } else if d < k {
        assert s[k] == tld[k - d - 1];
      }
    }
    var r := IndexOf(s, '@');
    assert r == Some(a) by {
      assert '@' !in local;
    }
    assert s[a + 1..] == domain + [s[d]] + tld;
  }

  lemma ShapeGivesRegex(s: string)
    requires EmailShape(s)
    ensures EmailRegexMatches(s)
  {
    var a := IndexOf(s, '@').value;
    var d :| a + 1 < d < |s| - 1 && s[d] == '.';
    var local, domain, tld := s[..a], s[a + 1..d], s[d + 1..];
    assert s[a + 1..] == domain + s[d..];
    assert s[d..] == [s[d]] + tld;
    forall k | 0 <= k < |domain| ensures !IsSpace(domain[k]) {
      assert domain[k] == s[a + 1 + k];
    }
    forall k | 0 <= k < |tld| ensures !IsSpace(tld[k]) {
      assert tld[k] == s[d + 1 + k];
    }
    assert EmailPart(local) && EmailPart(domain) && EmailPart(tld);
  }

  /** An address the pattern accepts is never blank. */
  lemma EmailMatchIsNotBlank(s: string)
    ensures EmailRegexMatches(s) ==> !IsBlank(s)
  {
    if !EmailRegexMatches(s) {
      return;
    }
    var a, d :| 0 <= a < d < |s| && s[a] == '@' && s[d] == '.'
      && EmailPart(s[..a]) && EmailPart(s[a + 1..d]) && EmailPart(s[d + 1..]);
    BlankIffAllSpace(s);
    assert !IsSpace(s[a]);
  }

  /** `validateEmail`: accepted exactly when the pattern matches; a blank address is reported first. */
  function ValidateEmail(email: string): (r: string)
    ensures r == "" <==> EmailRegexMatches(email)
    ensures IsBlank(email) ==> r == EMAIL_REQUIRED
    ensures !IsBlank(email) && !EmailRegexMatches(email) ==> r == EMAIL_INVALID
  {
    EmailMatchIsNotBlank(email);
    if IsBlank(email) then EMAIL_REQUIRED
    else if !EmailRegexMatches(email) then EMAIL_INVALID
    else ""
  }

  // ---------------------------------------------------------------------------
  // Passwords

  /** `validatePassword`: accepted exactly when not blank and at least six characters long. */
  function ValidatePassword(password: string): (r: string)
    ensures r == "" <==> !IsBlank(password) && |password| >= MIN_LENGTH
    ensures IsBlank(password) ==> r == PASSWORD_REQUIRED
    ensures !IsBlank(password) && |password| < MIN_LENGTH ==> r == TooShort(MIN_LENGTH)
  {
    if IsBlank(password) then PASSWORD_REQUIRED
    else if |password| < MIN_LENGTH then TooShort(MIN_LENGTH)
    else ""
  }

  /** The character classes a strong password needs, in the order they are reported. */
  datatype CharClass = Uppercase | Lowercase | Number | Special

  const CLASS_ORDER := [Uppercase, Lowercase, Number, Special]

  function Label(c: CharClass): string {
    match c
    case Uppercase => "uppercase letter"
    case Lowercase => "lowercase letter"
    case Number => "number"
    case Special => "special character"
  }

  /** `[A-Z]`, `[a-z]`, `\d` and `[^a-zA-Z0-9]` on one character. */
  predicate InClass(ch: char, c: CharClass) {
    match c
    case Uppercase => IsUpperAscii(ch)
    case Lowercase => IsLowerAscii(ch)
    case Number => IsDigit(ch)
    case Special => !IsUpperAscii(ch) && !IsLowerAscii(ch) && !IsDigit(ch)
  }

  predicate HasClass(p: string, c: CharClass) {
    exists k | 0 <= k < |p| :: InClass(p[k], c)
  }

  /** The classes the password lacks, tested in the fixed order. */
  function MissingClasses(p: string): seq<CharClass> {
    (if !HasClass(p, Uppercase) then [Uppercase] else [])
    + (if !HasClass(p, Lowercase) then [Lowercase] else [])
    + (if !HasClass(p, Number) then [Number] else [])
    + (if !HasClass(p, Special) then [Special] else [])
  }

  function Labels(cs: seq<CharClass>): (r: seq<string>)
    ensures |r| == |cs| && forall k :: 0 <= k < |cs| ==> r[k] == Label(cs[k])
  {
    if cs == [] then [] else [Label(cs[0])] + Labels(cs[1..])
  }

  function IndexIn(c: CharClass): nat {
    match c
    case Uppercase => 0
    case Lowercase => 1
    case Number => 2
    case Special => 3
  }

  /**
   * The missing list names exactly the absent classes, each once, in the
   * order uppercase, lowercase, number, special character.
   */
  lemma MissingClassesOrdered(p: string)
    ensures forall c :: c in MissingClasses(p) <==> !HasClass(p, c)
    ensures forall i, j :: 0 <= i < j < |MissingClasses(p)| ==>
      IndexIn(MissingClasses(p)[i]) < IndexIn(MissingClasses(p)[j])
  {
    var m := MissingClasses(p);
    forall c ensures c in m <==> !HasClass(p, c) {
      match c
      case Uppercase =>
      case Lowercase =>
      case Number =>
      case Special =>
    }
  }

  /** Every character is in exactly one class, so a non-empty password lacks at most three. */
  lemma AtMostThreeMissing(p: string)
    requires |p| > 0
    ensures |MissingClasses(p)| <= 3
  {
    var ch := p[0];
    if IsUpperAscii(ch) {
      assert HasClass(p, Uppercase);
    } else if IsLowerAscii(ch) {
      assert HasClass(p, Lowercase);
    } else if IsDigit(ch) {
      assert HasClass(p, Number);
    } else {
      assert InClass(p[0], Special);
    }
  }

  /**
   * `validatePasswordStrong`: a blank password is reported first, then one
   * shorter than eight characters whatever its classes, then the list of
   * missing classes; accepted exactly when long enough with all four classes.
   */
  function ValidatePasswordStrong(password: string): (r: string)
    ensures r == "" <==>
      !IsBlank(password) && |password| >= STRONG_MIN_LENGTH && forall c :: HasClass(password, c)
    ensures IsBlank(password) ==> r == PASSWORD_REQUIRED
    ensures !IsBlank(password) && |password| < STRONG_MIN_LENGTH ==> r == TooShort(STRONG_MIN_LENGTH)
    ensures !IsBlank(password) && |password| >= STRONG_MIN_LENGTH && MissingClasses(password) != [] ==>
      r == MISSING_PREFIX + Join(Labels(MissingClasses(password)), ", ")
  {
    MissingClassesOrdered(password);
    if IsBlank(password) then PASSWORD_REQUIRED
    else if |password| < STRONG_MIN_LENGTH then TooShort(STRONG_MIN_LENGTH)
    else
      var errors := MissingClasses(password);
      if |errors| > 0 then
        assert exists c :: c in errors;
        MISSING_PREFIX + Join(Labels(errors), ", ")
      else
        assert forall c :: HasClass(password, c) by {
          forall c ensures HasClass(password, c) {
            assert c !in errors;
          }
        }
        ""
  }

  /** `validateConfirmPassword`: a blank confirmation is reported before a mismatch; accepted exactly on an equal, non-blank confirmation. */
  function ValidateConfirmPassword(password: string, confirmPassword: string): (r: string)
    ensures r == "" <==> !IsBlank(confirmPassword) && password == confirmPassword
    ensures IsBlank(confirmPassword) ==> r == CONFIRM_REQUIRED
    ensures !IsBlank(confirmPassword) && password != confirmPassword ==> r == CONFIRM_MISMATCH
  {
    if IsBlank(confirmPassword) then CONFIRM_REQUIRED
    else if password != confirmPassword then CONFIRM_MISMATCH
    else ""
  }

  /** The length messages carry the configured numbers. */
  lemma LengthMessages()
    ensures TooShort(MIN_LENGTH) == "Password must be at least 6 characters"
    ensures TooShort(STRONG_MIN_LENGTH) == "Password must be at least 8 characters"
  {
    assert DecimalString(6) == "6";
    assert DecimalString(8) == "8";
  }

  /** A strong password also passes the basic check. */
  lemma StrongImpliesBasic(password: string)
    requires ValidatePasswordStrong(password) == ""
    ensures ValidatePassword(password) == ""
  {
  }
}
