/** Field validation shared by the checkout form (order.js) and the contact
    form (contact.js): a rule table entry per field name, the regular
    expressions those entries use, written out as character predicates, and
    the rule check both pages run on the trimmed field value. */
module Forms {
  import opened Optional
  import opened Strings

  /** The regular expressions the two rule tables use. */
  datatype Pattern =
    | Letters          // /^[a-zA-Z\s]+$/            checkout name and city
    | PersonName       // /^[a-zA-Z\s'-]+$/          contact first and last name
    | CheckoutPhone    // /^[\+]?[1-9][\d]{0,15}$/
    | ContactPhone     // /^[\+]?[1-9][\d\s\-\(\)]{8,15}$/
    | Email            // /^[^\s@]+@[^\s@]+\.[^\s@]+$/
    | Zip              // /^\d{5}(-\d{4})?$/
    | FormattedPhone   // /^[\+]?\(?[1-9][\d\s\-\(\)]{8,15}$/  (ContactPhone, also taking a leading parenthesis)

  /** One rule table entry. A length bound of 0 stands for an absent bound,
      as 0 is falsy in the source's `rules.minLength && ...` tests. */
  datatype Rule = Rule(required: bool, minLength: nat, maxLength: nat, pattern: Option<Pattern>)

  /** Why a field was rejected, in the order the checks run. `Missing`
      carries 'This field is required'; `Mismatch` and `PhoneDigits` both
      show the rule's own message. */
  datatype Reason = Missing | TooShort(min: nat) | TooLong(max: nat) | Mismatch | PhoneDigits

  datatype Verdict = Valid | Invalid(reason: Reason)

  // ---------------------------------------------------------------------
  // The patterns

  predicate NotSpaceOrAt(c: char) {
    !IsSpace(c) && c != '@'
  }

  predicate AllNotSpaceOrAt(s: string) {
    forall i :: 0 <= i < |s| ==> NotSpaceOrAt(s[i])
  }

  /** `[^\s@]+\.[^\s@]+`: no white space or `@`, and a dot with at least one
      character on each side of it. */
  predicate EmailDomain(d: string) {
    AllNotSpaceOrAt(d) && exists k | 1 <= k < |d| - 1 :: d[k] == '.'
  }

  /** The phone patterns start with an optional `+`, which is consumed
      whenever present (`[1-9]` cannot match it). */
  function AfterPlus(s: string): string {
    if s != [] && s[0] == '+' then s[1..] else s
  }

  /** The optional `(` that `FormattedPhone` allows before the first digit. */
  function AfterParen(s: string): string {
    if s != [] && s[0] == '(' then s[1..] else s
  }

  predicate IsNonZeroDigit(c: char) {
    '1' <= c <= '9'
  }

  predicate IsPhoneFiller(c: char) {
    IsDigit(c) || IsSpace(c) || c == '-' || c == '(' || c == ')'
  }

  /** `^[a-zA-Z\s]+$` */
  predicate LettersOnly(s: string) {
    |s| >= 1 && forall i :: 0 <= i < |s| ==> IsAsciiLetter(s[i]) || IsSpace(s[i])
  }

  /** `^[a-zA-Z\s'-]+$` */
  predicate NameChars(s: string) {
    |s| >= 1 && forall i :: 0 <= i < |s| ==>
      IsAsciiLetter(s[i]) || IsSpace(s[i]) || s[i] == '\'' || s[i] == '-'
  }

  /** `[1-9][\d]{0,15}$`, after the optional `+`. */
  predicate DigitsBody(u: string) {
    1 <= |u| <= 16 && IsNonZeroDigit(u[0]) && AllDigits(u[1..])
  }

  /** `[1-9][\d\s\-\(\)]{8,15}$`, after the optional `+` (and `(`). */
  predicate PhoneBody(u: string) {
    9 <= |u| <= 16 && IsNonZeroDigit(u[0])
    && forall i :: 1 <= i < |u| ==> IsPhoneFiller(u[i])
  }

  /** `^[^\s@]+@[^\s@]+\.[^\s@]+$` */
  predicate EmailForm(s: string) {
    exists i | 1 <= i < |s| :: s[i] == '@' && AllNotSpaceOrAt(s[..i]) && EmailDomain(s[i + 1..])
  }

  /** `^\d{5}(-\d{4})?$` */
  predicate ZipForm(s: string) {
    (|s| == 5 && AllDigits(s))
    || (|s| == 10 && AllDigits(s[..5]) && s[5] == '-' && AllDigits(s[6..]))
  }

  /** `pattern.test(s)` for an anchored pattern. */
  predicate Matches(p: Pattern, s: string) {
    match p
    case Letters => LettersOnly(s)
    case PersonName => NameChars(s)
    case CheckoutPhone => DigitsBody(AfterPlus(s))
    case ContactPhone => PhoneBody(AfterPlus(s))
    case FormattedPhone => PhoneBody(AfterParen(AfterPlus(s)))
    case Email => EmailForm(s)
    case Zip => ZipForm(s)
  }

  /** An email address holds exactly one `@` and no white space. */
  lemma EmailShape(s: string)
    requires Matches(Email, s)
    ensures forall j :: 0 <= j < |s| ==> !IsSpace(s[j])
    ensures exists i :: 0 <= i < |s| && s[i] == '@'
              && (forall j :: 0 <= j < |s| && j != i ==> s[j] != '@')
  {
    var i :| 1 <= i < |s| && s[i] == '@' && AllNotSpaceOrAt(s[..i]) && EmailDomain(s[i + 1..]);
    forall j | 0 <= j < |s| && j != i
      ensures NotSpaceOrAt(s[j])
    {
      if j < i {
        assert s[..i][j] == s[j];
      } else {
        assert s[i + 1..][j - i - 1] == s[j];
      }
    }
  }

  /** A ZIP code is five digits, or five digits, a hyphen and four digits;
      either way it carries exactly 5 or 9 digits. */
  lemma ZipDigits(s: string)
    requires Matches(Zip, s)
    ensures |s| == 5 || |s| == 10
    ensures |Digits(s)| == 5 || |Digits(s)| == 9
  {
    if |s| == 5 {
      DigitsOfDigits(s);
    } else {
      assert s == s[..5] + ([s[5]] + s[6..]);
      DigitsAppend(s[..5], [s[5]] + s[6..]);
      DigitsAppend([s[5]], s[6..]);
      DigitsOfDigits(s[..5]);
      DigitsOfDigits(s[6..]);
    }
  }

  // ---------------------------------------------------------------------
  // The rule check

  /** The checks common to both pages, on the trimmed value, in source
      order: required, optional-and-empty, minimum length, maximum length,
      pattern. */
  function Check(rule: Rule, raw: string): (r: Verdict)
    ensures r == Valid <==>
      var v := Trim(raw);
      (v == [] && !rule.required) || (v != [] && Conforms(rule, v))
    ensures r == Invalid(Missing) <==> rule.required && Trim(raw) == []
    ensures r.Invalid? && r.reason.TooShort? ==>
      Trim(raw) != [] && |Trim(raw)| < rule.minLength && r.reason == TooShort(rule.minLength)
  {
    var v := Trim(raw);
    if rule.required && v == [] then Invalid(Missing)
    else if !rule.required && v == [] then Valid
    else if rule.minLength > 0 && |v| < rule.minLength then Invalid(TooShort(rule.minLength))
    else if rule.maxLength > 0 && |v| > rule.maxLength then Invalid(TooLong(rule.maxLength))
    else if rule.pattern.Some? && !Matches(rule.pattern.value, v) then Invalid(Mismatch)
    else Valid
  }

  /** The trimmed value meets every bound and pattern of `rule`. */
  predicate Conforms(rule: Rule, v: string) {
    && (rule.minLength == 0 || |v| >= rule.minLength)
    && (rule.maxLength == 0 || |v| <= rule.maxLength)
    && (rule.pattern.None? || Matches(rule.pattern.value, v))
  }

  /** A field is accepted exactly when its trimmed value is empty and the
      field optional, or non-empty and conforming; an all-white-space value
      is missing for a required field and accepted for an optional one,
      whatever the pattern says. */
  lemma CheckValidIff(rule: Rule, raw: string)
    ensures Check(rule, raw) == Valid <==>
      var v := Trim(raw);
      (v == [] && !rule.required) || (v != [] && Conforms(rule, v))
    ensures (forall i :: 0 <= i < |raw| ==> IsSpace(raw[i])) ==>
      Check(rule, raw) == (if rule.required then Invalid(Missing) else Valid)
  {
    TrimEmptyIff(raw);
  }

  /** A rejection names the FIRST check that fails: a too-long value is
      reported only when it is long enough, a pattern mismatch only when
      both length bounds hold. */
  lemma CheckOrder(rule: Rule, raw: string)
    ensures Check(rule, raw) == Invalid(Missing) <==> rule.required && Trim(raw) == []
    ensures Check(rule, raw).Invalid? && Check(rule, raw).reason.TooLong? ==>
      Trim(raw) != [] && (rule.minLength == 0 || |Trim(raw)| >= rule.minLength)
      && |Trim(raw)| > rule.maxLength > 0
    ensures Check(rule, raw) == Invalid(Mismatch) ==>
      Trim(raw) != [] && rule.pattern.Some? && !Matches(rule.pattern.value, Trim(raw))
      && (rule.minLength == 0 || |Trim(raw)| >= rule.minLength)
      && (rule.maxLength == 0 || |Trim(raw)| <= rule.maxLength)
  {
  }

  /** Trimming is idempotent, so checking depends only on the trimmed value. */
  lemma CheckIgnoresPadding(rule: Rule, raw: string)
    ensures Check(rule, raw) == Check(rule, Trim(raw))
  {
    var r := Trim(raw);
    if r != [] {
      TrimNoPadding(r);
    }
  }
}
