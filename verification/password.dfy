/** The password strength rule applied before a first-login registration
    (`validatePassword` in internal/middleware/auth/auth.go).

    Go's `len` counts bytes and its regular expressions read the string as UTF-8. The
    classes `[A-Z]`, `[a-z]` and `\d` are ASCII only, and `[\W_]` matches every rune
    outside `[0-9A-Za-z]`; every byte of a multi-byte or malformed sequence belongs to such
    a rune. So the rule can be stated byte by byte, which is what this module does. */
module Password {
  import opened Models

  const MinLength: nat := 8

  datatype CharClass = Upper | Lower | Digit | Special

  predicate IsAlphanumeric(b: byte)
  {
    (65 <= b <= 90) || (97 <= b <= 122) || (48 <= b <= 57)
  }

  /** The byte classes of the four regular expressions. */
  predicate InClass(b: byte, c: CharClass)
  {
    match c
    case Upper => 65 <= b <= 90
    case Lower => 97 <= b <= 122
    case Digit => 48 <= b <= 57
    case Special => !IsAlphanumeric(b)
  }

  /** The password holds at least one byte of class `c`. */
  ghost predicate Has(password: Bytes, c: CharClass)
  {
    exists i :: 0 <= i < |password| && InClass(password[i], c)
  }

  /** A class occurs in a non-empty password iff it is its first byte or occurs in the rest. */
  lemma {:induction false} HasUnfold(password: Bytes, c: CharClass)
    requires password != []
    ensures Has(password, c) <==> InClass(password[0], c) || Has(password[1..], c)
  {
    if Has(password[1..], c) {
      var i :| 0 <= i < |password[1..]| && InClass(password[1..][i], c);
      assert password[i + 1] == password[1..][i];
    }
    if Has(password, c) && !InClass(password[0], c) {
      var i :| 0 <= i < |password| && InClass(password[i], c);
      assert i > 0 && password[1..][i - 1] == password[i];
    }
  }

  /** `MatchString` of a one-class regular expression: a front-to-back scan. */
  function Matches(password: Bytes, c: CharClass): (found: bool)
    ensures found <==> Has(password, c)
    decreases |password|
  {
    if password == [] then false
    else
      HasUnfold(password, c);
      InClass(password[0], c) || Matches(password[1..], c)
  }

  /** Every class is one of the four the rule checks. */
  lemma AllClasses(password: Bytes)
    requires Has(password, Upper) && Has(password, Lower) && Has(password, Digit) && Has(password, Special)
    ensures forall c :: Has(password, c)
  {
    forall c ensures Has(password, c) {
      match c
      case Upper => {}
      case Lower => {}
      case Digit => {}
      case Special => {}
    }
  }

  /** validatePassword: too short is rejected outright; otherwise all four classes must
      occur. */
  function Valid(password: Bytes): (ok: bool)
    ensures |password| < MinLength ==> !ok
    ensures ok <==> |password| >= MinLength && forall c :: Has(password, c)
  {
    if |password| < MinLength then false
    else
      var ok := Matches(password, Upper) && Matches(password, Lower)
                && Matches(password, Digit) && Matches(password, Special);
      if ok then AllClasses(password); ok else ok
  }

  /** The bytes of an ASCII string literal. */
  function Ascii(s: string): (b: Bytes)
    requires forall i :: 0 <= i < |s| ==> s[i] as int < 128
    ensures |b| == |s|
    ensures forall i :: 0 <= i < |s| ==> b[i] as int == s[i] as int
  {
    if s == [] then [] else [s[0] as int as byte] + Ascii(s[1..])
  }

  /** A password of eight or more bytes that shows each class at the given positions is valid. */
  lemma ValidByWitnesses(p: Bytes, u: nat, l: nat, d: nat, x: nat)
    requires |p| >= MinLength && u < |p| && l < |p| && d < |p| && x < |p|
    requires InClass(p[u], Upper) && InClass(p[l], Lower) && InClass(p[d], Digit) && InClass(p[x], Special)
    ensures Valid(p)
  {
    AllClasses(p);
  }

  /** The password the login tests register with. */
  lemma TestPasswordIsValid()
    ensures Valid(Ascii("Test123@"))
  {
    var p := Ascii("Test123@");
    assert p[0] == 84 && p[1] == 101 && p[4] == 49 && p[7] == 64;
    ValidByWitnesses(p, 0, 1, 4, 7);
  }

  /** The password the login tests reject as badly formatted. */
  lemma ShortPasswordIsInvalid()
    ensures !Valid(Ascii("short"))
  {
  }

  /** The password of an example first login, "11111!Aa". */
  const ExamplePassword: Bytes := Ascii("11111!Aa")

  lemma ExamplePasswordIsValid()
    ensures Valid(ExamplePassword)
  {
    var p := ExamplePassword;
    assert p[6] == 65 && p[7] == 97 && p[0] == 49 && p[5] == 33;
    ValidByWitnesses(p, 6, 7, 0, 5);
  }
}
