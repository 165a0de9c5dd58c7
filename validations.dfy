/**
 * The form schemas of the application, written as the zod checks they are built from.
 * A field schema is a list of checks; zod runs every check and reports one message per
 * failing check, and the field is accepted when there are none. Each schema is then tied
 * to a plain statement of what it accepts.
 *
 * Strings are sequences of code points; zod measures `.length` in UTF-16 code units, which
 * agrees for every string the character-class checks accept (all their characters are in the
 * Basic Multilingual Plane).
 */
module Validations {
  import opened Decimal

  /** One item of a regular-expression character class: a range such as `a-z`, or `\s`. */
  datatype ClassItem = Range(lo: char, hi: char) | Whitespace

  /**
   * JavaScript's `\s`: the WhiteSpace and LineTerminator code points of ECMA-262
   * (tab, vertical tab, form feed, space, no-break space, the space separators of
   * Unicode category Zs, the byte-order mark, line feed, carriage return, and the
   * line and paragraph separators).
   */
  predicate IsJsWhitespace(c: char) {
    c == '\t' || c == '\n' || c == '\U{000B}' || c == '\U{000C}' || c == '\r' || c == ' '
    || c == '\U{00A0}' || c == '\U{1680}' || ('\U{2000}' <= c <= '\U{200A}')
    || c == '\U{2028}' || c == '\U{2029}' || c == '\U{202F}' || c == '\U{205F}'
    || c == '\U{3000}' || c == '\U{FEFF}'
  }

  predicate ItemMatches(item: ClassItem, c: char) {
    match item
    case Range(lo, hi) => lo <= c <= hi
    case Whitespace => IsJsWhitespace(c)
  }

  predicate InClass(cls: seq<ClassItem>, c: char) {
    exists i :: 0 <= i < |cls| && ItemMatches(cls[i], c)
  }

  /** The two anchored regular-expression shapes the schemas use: `^[...]+$` and `^[...]{n}$`. */
  datatype Pattern = OneOrMore(cls: seq<ClassItem>) | Repeat(cls: seq<ClassItem>, count: nat)

  /** Matching of an anchored pattern, one character at a time from the left. */
  function Matches(p: Pattern, s: string): bool
    decreases |s|
  {
    match p
    case OneOrMore(cls) =>
      |s| >= 1 && InClass(cls, s[0]) && (|s| == 1 || Matches(p, s[1..]))
    case Repeat(cls, n) =>
      if n == 0 then s == []
      else |s| >= 1 && InClass(cls, s[0]) && Matches(Repeat(cls, n - 1), s[1..])
  }

  /** How many characters a pattern admits. */
  predicate LengthFits(p: Pattern, len: nat) {
    match p
    case OneOrMore(_) => len >= 1
    case Repeat(_, n) => len == n
  }

  /** A pattern matches exactly the strings of an admitted length made only of class members. */
  lemma {:induction false} MatchesCharacterwise(p: Pattern, s: string)
    ensures Matches(p, s) <==> LengthFits(p, |s|) && forall i :: 0 <= i < |s| ==> InClass(p.cls, s[i])
    decreases |s|
  {
    if |s| >= 1 {
      match p
      case OneOrMore(cls) =>
        if |s| > 1 { MatchesCharacterwise(p, s[1..]); }
      case Repeat(cls, n) =>
        if n > 0 { MatchesCharacterwise(Repeat(cls, n - 1), s[1..]); }
      assert forall i :: 1 <= i < |s| ==> s[i] == s[1..][i - 1];
    }
  }

  /** One zod string check with the message it reports when it fails. */
  datatype Check =
    | MinLength(min: nat, message: string)
    | MaxLength(max: nat, message: string)
    | ExactLength(length: nat, message: string)
    | Regex(pattern: Pattern, message: string)
    | EmailFormat(message: string)

  /** Whether one check passes; zod's e-mail format test belongs to the library and is a parameter. */
  predicate Passes(c: Check, s: string, isEmail: string -> bool) {
    match c
    case MinLength(n, _) => |s| >= n
    case MaxLength(n, _) => |s| <= n
    case ExactLength(n, _) => |s| == n
    case Regex(p, _) => Matches(p, s)
    case EmailFormat(_) => isEmail(s)
  }

  /** The messages reported for `s`: one per failing check, in the order the checks are declared. */
  function Issues(checks: seq<Check>, s: string, isEmail: string -> bool): (msgs: seq<string>)
    ensures |msgs| <= |checks|
  {
    if checks == [] then []
    else (if Passes(checks[0], s, isEmail) then [] else [checks[0].message]) + Issues(checks[1..], s, isEmail)
  }

  predicate Accepts(checks: seq<Check>, s: string, isEmail: string -> bool) {
    Issues(checks, s, isEmail) == []
  }

  /** A field is accepted iff every one of its checks passes. */
  lemma {:induction false} AcceptsIffAllPass(checks: seq<Check>, s: string, isEmail: string -> bool)
    ensures Accepts(checks, s, isEmail) <==> forall i :: 0 <= i < |checks| ==> Passes(checks[i], s, isEmail)
  {
    if checks != [] {
      AcceptsIffAllPass(checks[1..], s, isEmail);
      assert forall i :: 1 <= i < |checks| ==> checks[i] == checks[1..][i - 1];
    }
  }

  lemma AcceptsThree(checks: seq<Check>, s: string, isEmail: string -> bool)
    requires |checks| == 3
    ensures Accepts(checks, s, isEmail) <==>
      Passes(checks[0], s, isEmail) && Passes(checks[1], s, isEmail) && Passes(checks[2], s, isEmail)
  {
    AcceptsIffAllPass(checks, s, isEmail);
  }

  // ---- character classes of the schemas ----

  const Digits: seq<ClassItem> := [Range('0', '9')]
  const NameClass: seq<ClassItem> := [Range('a', 'z'), Range('A', 'Z'), Whitespace]
  const TitleClass: seq<ClassItem> := [Range('a', 'z'), Range('A', 'Z'), Range('0', '9'), Whitespace, Range('-', '-'), Range('_', '_')]

  predicate IsAsciiLetter(c: char) {
    'a' <= c <= 'z' || 'A' <= c <= 'Z'
  }

  // ---- field schemas, as declared ----

  const NameChecks: seq<Check> := [
    MinLength(2, "Name must be at least 2 characters"),
    MaxLength(50, "Name must be less than 50 characters"),
    Regex(OneOrMore(NameClass), "Name can only contain letters and spaces")
  ]

  const EmailChecks: seq<Check> := [
    EmailFormat("Please enter a valid email address"),
    MinLength(5, "Email must be at least 5 characters"),
    MaxLength(100, "Email must be less than 100 characters")
  ]

  /** The phone field; signupSchema, loginSchema and phoneSchema each declare this same list. */
  const PhoneChecks: seq<Check> := [
    MinLength(10, "Phone number must be at least 10 digits"),
    MaxLength(15, "Phone number must be less than 15 digits"),
    Regex(OneOrMore(Digits), "Phone number can only contain digits")
  ]

  const CountryCodeChecks: seq<Check> := [MinLength(1, "Country code is required")]

  const OtpChecks: seq<Check> := [
    ExactLength(6, "OTP must be exactly 6 digits"),
    Regex(Repeat(Digits, 6), "OTP must contain only digits")
  ]

  const TitleChecks: seq<Check> := [
    MinLength(3, "Title must be at least 3 characters"),
    MaxLength(50, "Title must be less than 50 characters"),
    Regex(OneOrMore(TitleClass), "Title can only contain letters, numbers, spaces, hyphens, and underscores")
  ]

  // ---- what each field accepts, stated directly ----

  predicate ValidName(s: string) {
    2 <= |s| <= 50 && forall i :: 0 <= i < |s| ==> IsAsciiLetter(s[i]) || IsJsWhitespace(s[i])
  }

  predicate ValidEmail(s: string, isEmail: string -> bool) {
    5 <= |s| <= 100 && isEmail(s)
  }

  /** Between 10 and 15 digits, both bounds included (the message's "less than 15" notwithstanding). */
  predicate ValidPhone(s: string) {
    10 <= |s| <= 15 && AllDigits(s)
  }

  predicate ValidCountryCode(s: string) {
    |s| >= 1
  }

  predicate ValidOtp(s: string) {
    |s| == 6 && AllDigits(s)
  }

  predicate ValidTitle(s: string) {
    3 <= |s| <= 50 && forall i :: 0 <= i < |s| ==> IsAsciiLetter(s[i]) || IsDigit(s[i]) || IsJsWhitespace(s[i]) || s[i] == '-' || s[i] == '_'
  }

  lemma NameChecksSpec(s: string, isEmail: string -> bool)
    ensures Accepts(NameChecks, s, isEmail) <==> ValidName(s)
  {
    AcceptsThree(NameChecks, s, isEmail);
    MatchesCharacterwise(OneOrMore(NameClass), s);
    forall c: char ensures InClass(NameClass, c) <==> IsAsciiLetter(c) || IsJsWhitespace(c) {
      if IsJsWhitespace(c) { assert ItemMatches(NameClass[2], c); }
      if 'a' <= c <= 'z' { assert ItemMatches(NameClass[0], c); }
      if 'A' <= c <= 'Z' { assert ItemMatches(NameClass[1], c); }
    }
  }

  lemma EmailChecksSpec(s: string, isEmail: string -> bool)
    ensures Accepts(EmailChecks, s, isEmail) <==> ValidEmail(s, isEmail)
  {
    AcceptsThree(EmailChecks, s, isEmail);
  }

  lemma PhoneChecksSpec(s: string, isEmail: string -> bool)
    ensures Accepts(PhoneChecks, s, isEmail) <==> ValidPhone(s)
  {
    AcceptsThree(PhoneChecks, s, isEmail);
    MatchesCharacterwise(OneOrMore(Digits), s);
    forall c: char ensures InClass(Digits, c) <==> IsDigit(c) {
      if IsDigit(c) { assert ItemMatches(Digits[0], c); }
    }
  }

  lemma CountryCodeChecksSpec(s: string, isEmail: string -> bool)
    ensures Accepts(CountryCodeChecks, s, isEmail) <==> ValidCountryCode(s)
  {
    AcceptsIffAllPass(CountryCodeChecks, s, isEmail);
  }

  lemma OtpChecksSpec(s: string, isEmail: string -> bool)
    ensures Accepts(OtpChecks, s, isEmail) <==> ValidOtp(s)
  {
    AcceptsIffAllPass(OtpChecks, s, isEmail);
    assert Accepts(OtpChecks, s, isEmail) <==> Passes(OtpChecks[0], s, isEmail) && Passes(OtpChecks[1], s, isEmail);
    MatchesCharacterwise(Repeat(Digits, 6), s);
    forall c: char ensures InClass(Digits, c) <==> IsDigit(c) {
      if IsDigit(c) { assert ItemMatches(Digits[0], c); }
    }
  }

  lemma TitleChecksSpec(s: string, isEmail: string -> bool)
    ensures Accepts(TitleChecks, s, isEmail) <==> ValidTitle(s)
  {
    AcceptsThree(TitleChecks, s, isEmail);
    MatchesCharacterwise(OneOrMore(TitleClass), s);
    forall c: char
      ensures InClass(TitleClass, c) <==> IsAsciiLetter(c) || IsDigit(c) || IsJsWhitespace(c) || c == '-' || c == '_'
    {
      if 'a' <= c <= 'z' { assert ItemMatches(TitleClass[0], c); }
      if 'A' <= c <= 'Z' { assert ItemMatches(TitleClass[1], c); }
      if IsDigit(c) { assert ItemMatches(TitleClass[2], c); }
      if IsJsWhitespace(c) { assert ItemMatches(TitleClass[3], c); }
      if c == '-' { assert ItemMatches(TitleClass[4], c); }
      if c == '_' { assert ItemMatches(TitleClass[5], c); }
    }
  }

  // ---- object schemas ----

  datatype SignupForm = SignupForm(name: string, email: string, phone: string, countryCode: string)
  /** The shape shared by loginSchema and phoneSchema. */
  datatype PhoneForm = PhoneForm(phone: string, countryCode: string)

  predicate SignupSchemaAccepts(f: SignupForm, isEmail: string -> bool) {
    && Accepts(NameChecks, f.name, isEmail)
    && Accepts(EmailChecks, f.email, isEmail)
    && Accepts(PhoneChecks, f.phone, isEmail)
    && Accepts(CountryCodeChecks, f.countryCode, isEmail)
  }

  predicate LoginSchemaAccepts(f: PhoneForm, isEmail: string -> bool) {
    Accepts(PhoneChecks, f.phone, isEmail) && Accepts(CountryCodeChecks, f.countryCode, isEmail)
  }

  predicate PhoneSchemaAccepts(f: PhoneForm, isEmail: string -> bool) {
    Accepts(PhoneChecks, f.phone, isEmail) && Accepts(CountryCodeChecks, f.countryCode, isEmail)
  }

  predicate OtpSchemaAccepts(otp: string, isEmail: string -> bool) {
    Accepts(OtpChecks, otp, isEmail)
  }

  predicate ChatroomSchemaAccepts(title: string, isEmail: string -> bool) {
    Accepts(TitleChecks, title, isEmail)
  }

  lemma SignupSchemaSpec(f: SignupForm, isEmail: string -> bool)
    ensures SignupSchemaAccepts(f, isEmail) <==>
      ValidName(f.name) && ValidEmail(f.email, isEmail) && ValidPhone(f.phone) && ValidCountryCode(f.countryCode)
  {
    NameChecksSpec(f.name, isEmail);
    EmailChecksSpec(f.email, isEmail);
    PhoneChecksSpec(f.phone, isEmail);
    CountryCodeChecksSpec(f.countryCode, isEmail);
  }

  /** loginSchema and phoneSchema accept the same forms, and what they accept is stated directly. */
  lemma LoginAndPhoneSchemasAgree(f: PhoneForm, isEmail: string -> bool)
    ensures LoginSchemaAccepts(f, isEmail) <==> PhoneSchemaAccepts(f, isEmail)
    ensures LoginSchemaAccepts(f, isEmail) <==> ValidPhone(f.phone) && ValidCountryCode(f.countryCode)
  {
    PhoneChecksSpec(f.phone, isEmail);
    CountryCodeChecksSpec(f.countryCode, isEmail);
  }

  /** A 15-digit phone is accepted and a 16-digit one is refused: the upper bound is inclusive. */
  lemma PhoneUpperBoundInclusive(isEmail: string -> bool)
    ensures Accepts(PhoneChecks, "123456789012345", isEmail)
    ensures !Accepts(PhoneChecks, "1234567890123456", isEmail)
  {
    PhoneChecksSpec("123456789012345", isEmail);
    PhoneChecksSpec("1234567890123456", isEmail);
  }

  /** chatroomSchema accepts exactly the valid titles. */
  lemma ChatroomSchemaSpec(title: string, isEmail: string -> bool)
    ensures ChatroomSchemaAccepts(title, isEmail) <==> ValidTitle(title)
  {
    TitleChecksSpec(title, isEmail);
  }
}
