/** The contact page (contact.js): the phone formatter run on every
    keystroke, the field rules and per-field check, submission with its
    re-entry guard, the capped message history, and the opening-hours test. */
module Contact {
  import opened Optional
  import opened Strings
  import opened Forms
  import History

  // ---------------------------------------------------------------------
  // Phone formatting

  /** The formatter's rewrite of a digit string: ten or more digits become
      `(ddd) ddd-dddd` followed by the rest, three to five become `(ddd) `
      and the rest, and any other count is left bare (six to nine digits
      hold no ten-digit run for the first pattern to match). */
  function FormatDigits(d: string): string {
    if |d| >= 10 then "(" + d[..3] + ") " + d[3..6] + "-" + d[6..10] + d[10..]
    else if 3 <= |d| < 6 then "(" + d[..3] + ") " + d[3..]
    else d
  }

  /** formatPhoneNumber: strip every non-digit, then rewrite by the digit count. */
  function FormatPhone(input: string): (r: string)
    ensures Digits(r) == Digits(input)
    ensures var n := |Digits(input)|;
      (n < 3 || 6 <= n < 10) ==> r == Digits(input)
    ensures var n := |Digits(input)|;
      n >= 10 ==> |r| == n + 4 && r[0] == '(' && r[4] == ')' && r[5] == ' ' && r[9] == '-'
    ensures var n := |Digits(input)|;
      3 <= n < 6 ==> |r| == n + 3 && r[0] == '(' && r[4] == ')' && r[5] == ' '
  {
    var d := Digits(input);
    DigitsOfDigits(d);
    FormatKeepsDigits(d);
    FormatDigits(d)
  }

  /** The punctuation the formatter adds holds no digits. */
  lemma FormatKeepsDigits(d: string)
    requires AllDigits(d)
    ensures Digits(FormatDigits(d)) == d
  {
    DigitsOfDigits(d);
    if |d| >= 10 {
      LongFormKeepsDigits(d);
    } else if 3 <= |d| < 6 {
      ShortFormKeepsDigits(d);
    }
  }

  lemma LongFormKeepsDigits(d: string)
    requires AllDigits(d) && |d| >= 10
    ensures Digits("(" + d[..3] + ") " + d[3..6] + "-" + d[6..10] + d[10..]) == d
  {
    var a, b, c, e := d[..3], d[3..6], d[6..10], d[10..];
    DigitsConcat7("(", a, ") ", b, "-", c, e);
    DigitsOfDigits(a); DigitsOfDigits(b); DigitsOfDigits(c); DigitsOfDigits(e);
    DigitsOfNonDigits("("); DigitsOfNonDigits(") "); DigitsOfNonDigits("-");
    assert d == a + b + c + e;
  }

  lemma ShortFormKeepsDigits(d: string)
    requires AllDigits(d) && 3 <= |d|
    ensures Digits("(" + d[..3] + ") " + d[3..]) == d
  {
    var a, b := d[..3], d[3..];
    DigitsAppend("(" + a + ") ", b);
    DigitsAppend("(" + a, ") ");
    DigitsAppend("(", a);
    DigitsOfDigits(a); DigitsOfDigits(b);
    DigitsOfNonDigits("("); DigitsOfNonDigits(") ");
    assert d == a + b;
  }

  lemma DigitsConcat7(a: string, b: string, c: string, d: string, e: string, f: string, g: string)
    ensures Digits(a + b + c + d + e + f + g) ==
      Digits(a) + Digits(b) + Digits(c) + Digits(d) + Digits(e) + Digits(f) + Digits(g)
  {
    DigitsAppend(a + b + c + d + e + f, g);
    DigitsAppend(a + b + c + d + e, f);
    DigitsAppend(a + b + c + d, e);
    DigitsAppend(a + b + c, d);
    DigitsAppend(a + b, c);
    DigitsAppend(a, b);
  }

  /** Formatting an already formatted number changes nothing, so the
      formatter can run on every keystroke. */
  lemma FormatIdempotent(input: string)
    ensures FormatPhone(FormatPhone(input)) == FormatPhone(input)
  {
  }

  // ---------------------------------------------------------------------
  // Validation

  /** The contact rule table as written, by field name. */
  function ContactRule(field: string): (r: Option<Rule>)
    ensures r.Some? && r.value.maxLength > 0 <==> field == "message"
    ensures r.Some? && !r.value.required <==> field == "phone"
  {
    if field == "firstName" then Some(Rule(true, 2, 0, Some(PersonName)))
    else if field == "lastName" then Some(Rule(true, 2, 0, Some(PersonName)))
    else if field == "email" then Some(Rule(true, 0, 0, Some(Email)))
    else if field == "phone" then Some(Rule(false, 0, 0, Some(ContactPhone)))
    else if field == "subject" then Some(Rule(true, 0, 0, None))
    else if field == "message" then Some(Rule(true, 10, 1000, None))
    else None
  }

  /** validateField as written: a field with no rule is valid; otherwise
      the trimmed value is accepted exactly when it is blank and the field
      is the optional phone, or non-blank and within every bound and
      pattern of its rule. A blank required field is reported missing. */
  function ValidateFieldAsWritten(field: string, raw: string): (r: Verdict)
    ensures r == Valid <==>
      || ContactRule(field).None?
      || (Trim(raw) == [] && field == "phone")
      || (Trim(raw) != [] && Conforms(ContactRule(field).value, Trim(raw)))
    ensures r == Invalid(Missing) <==>
      ContactRule(field).Some? && field != "phone" && Trim(raw) == []
  {
    match ContactRule(field)
    case None => Valid
    case Some(rule) => Check(rule, raw)
  }

  /** As written, every number of ten or more digits the formatter has
      rewritten fails the phone pattern, whose first character must be `+`
      or 1-9 and never `(`; so does the `(ddd) ` form of 3 to 5 digits. */
  lemma FormattedPhoneRejected(input: string)
    requires var n := |Digits(input)|; n >= 10 || 3 <= n < 6
    ensures ValidateFieldAsWritten("phone", FormatPhone(input)) == Invalid(Mismatch)
  {
    ParenRejected(FormatPhone(input));
  }

  /** Any value starting with `(` fails the phone pattern as written. */
  lemma ParenRejected(f: string)
    requires f != [] && f[0] == '('
    ensures ValidateFieldAsWritten("phone", f) == Invalid(Mismatch)
  {
    TrimKeepsFirst(f);
    var v := Trim(f);
    assert AfterPlus(v) == v;
    assert !PhoneBody(v);
  }

  /** A ten-digit number typed plainly is the smallest witness. */
  lemma FormattedPhoneRejectedExample()
    ensures ValidateFieldAsWritten("phone", FormatPhone("5551234567")) == Invalid(Mismatch)
  {
    var s := "5551234567";
    assert |Digits(s)| == 10 by {
      assert AllDigits(s);
      DigitsOfDigits(s);
    }
    FormattedPhoneRejected(s);
  }

  /** The phone rule with the pattern corrected to take the leading `(` the
      formatter writes; every other rule is as written. */
  function ContactRuleCorrected(field: string): (r: Option<Rule>)
    ensures field != "phone" ==> r == ContactRule(field)
    ensures field == "phone" ==> r == Some(Rule(false, 0, 0, Some(FormattedPhone)))
  {
    if field == "phone" then Some(Rule(false, 0, 0, Some(FormattedPhone))) else ContactRule(field)
  }

  /** validateField with the corrected phone pattern: the same acceptance
      rule, under the corrected table, and the same verdict as written on
      every field but the phone. */
  function ValidateField(field: string, raw: string): (r: Verdict)
    ensures r == Valid <==>
      || ContactRuleCorrected(field).None?
      || (Trim(raw) == [] && field == "phone")
      || (Trim(raw) != [] && Conforms(ContactRuleCorrected(field).value, Trim(raw)))
    ensures field != "phone" ==> r == ValidateFieldAsWritten(field, raw)
  {
    match ContactRuleCorrected(field)
    case None => Valid
    case Some(rule) => Check(rule, raw)
  }

  /** With the corrected pattern, a formatted number of 10 to 13 digits
      that does not start with 0 is accepted. */
  lemma FormattedPhoneAccepted(input: string)
    requires var d := Digits(input); 10 <= |d| <= 13 && d[0] != '0'
    ensures ValidateField("phone", FormatPhone(input)) == Valid
  {
    LongFormAccepted(Digits(input));
  }

  lemma LongFormAccepted(d: string)
    requires AllDigits(d) && 10 <= |d| <= 13 && d[0] != '0'
    ensures ValidateField("phone", FormatDigits(d)) == Valid
  {
    LongFormShape(d);
    ShapeAccepted(FormatDigits(d));
  }

  /** Any value of the long form's shape passes the corrected phone check. */
  lemma ShapeAccepted(f: string)
    requires 14 <= |f| <= 17 && f[0] == '(' && IsNonZeroDigit(f[1]) && IsDigit(f[|f| - 1])
    requires forall j :: 1 <= j < |f| ==> IsDigit(f[j]) || f[j] == ')' || f[j] == ' ' || f[j] == '-'
    ensures ValidateField("phone", f) == Valid
  {
    TrimNoPadding(f);
    var u := f[1..];
    assert AfterParen(AfterPlus(f)) == u;
    assert PhoneBody(u) by {
      forall i | 1 <= i < |u|
        ensures IsPhoneFiller(u[i])
      {
        assert u[i] == f[i + 1];
      }
    }
  }

  /** Where the long form puts each character of a digit string. */
  lemma LongFormShape(d: string)
    requires AllDigits(d) && |d| >= 10
    ensures var f := FormatDigits(d);
      && |f| == |d| + 4 && f[0] == '(' && f[1] == d[0] && IsDigit(f[|f| - 1])
      && forall j :: 1 <= j < |f| ==> IsDigit(f[j]) || f[j] == ')' || f[j] == ' ' || f[j] == '-'
  {
    var f := FormatDigits(d);
    forall j | 1 <= j < |f|
      ensures IsDigit(f[j]) || f[j] == ')' || f[j] == ' ' || f[j] == '-'
    {
      if j <= 3 {
        assert f[j] == d[j - 1];
      } else if 6 <= j <= 8 {
        assert f[j] == d[j - 3];
      } else if j >= 10 {
        assert f[j] == d[j - 4];
      }
    }
  }

  /** The phone is optional: left blank, or only white space, it is valid. */
  lemma BlankPhoneValid(raw: string)
    requires forall i :: 0 <= i < |raw| ==> IsSpace(raw[i])
    ensures ValidateField("phone", raw) == Valid
  {
    CheckValidIff(Rule(false, 0, 0, Some(FormattedPhone)), raw);
  }

  /** A message is accepted exactly when its trimmed length is 10 to 1000. */
  lemma MessageLengthIff(raw: string)
    ensures ValidateField("message", raw) == Valid <==> 10 <= |Trim(raw)| <= 1000
  {
    CheckValidIff(Rule(true, 10, 1000, None), raw);
  }

  /** A subject is accepted exactly when it is not blank. */
  lemma SubjectRequiredIff(raw: string)
    ensures ValidateField("subject", raw) == Valid <==> Trim(raw) != []
  {
    CheckValidIff(Rule(true, 0, 0, None), raw);
  }

  // ---------------------------------------------------------------------
  // Submission

  /** What the form collects; the time stamp and generated id are not
      modelled. */
  datatype Message = Message(
    firstName: string, lastName: string, email: string,
    phone: string, subject: string, message: string)

  /** validateForm: every field of the form passes its check. */
  predicate ValidateForm(m: Message) {
    && ValidateField("firstName", m.firstName) == Valid
    && ValidateField("lastName", m.lastName) == Valid
    && ValidateField("email", m.email) == Valid
    && ValidateField("phone", m.phone) == Valid
    && ValidateField("subject", m.subject) == Valid
    && ValidateField("message", m.message) == Valid
  }

  /** A form that passes has both names at least two characters long, an
      email and a subject that are not blank, and a message of 10 to 1000
      characters, all measured after trimming. */
  lemma ValidFormFacts(m: Message)
    requires ValidateForm(m)
    ensures 2 <= |Trim(m.firstName)| && 2 <= |Trim(m.lastName)|
    ensures Trim(m.email) != [] && Trim(m.subject) != []
    ensures 10 <= |Trim(m.message)| <= 1000
  {
    NameLengthAtLeast(m.firstName);
    LastNameLengthAtLeast(m.lastName);
    EmailRequired(m.email);
    SubjectRequiredIff(m.subject);
    MessageLengthIff(m.message);
  }

  lemma NameLengthAtLeast(raw: string)
    ensures ValidateField("firstName", raw) == Valid ==> |Trim(raw)| >= 2
  {
    CheckValidIff(Rule(true, 2, 0, Some(PersonName)), raw);
  }

  lemma LastNameLengthAtLeast(raw: string)
    ensures ValidateField("lastName", raw) == Valid ==> |Trim(raw)| >= 2
  {
    CheckValidIff(Rule(true, 2, 0, Some(PersonName)), raw);
  }

  lemma EmailRequired(raw: string)
    ensures ValidateField("email", raw) == Valid ==> Trim(raw) != []
  {
    CheckValidIff(Rule(true, 0, 0, Some(Email)), raw);
  }

  const MESSAGE_CAP: nat := 50

  /** The record collectFormData builds: each field is `formData.get` of
      the form's FormData, null (`None`) when the FormData has no entry of
      that name, except the phone, where `|| ''` turns null into ''. The
      time stamp and generated id are not modelled. */
  datatype Entry = Entry(
    firstName: Option<string>, lastName: Option<string>, email: Option<string>,
    phone: string, subject: Option<string>, message: Option<string>)

  /** The record every field of which is missing. */
  const BLANK_ENTRY := Entry(None, None, None, "", None, None)

  /** The message a record holds, when it holds every field. */
  function ReadBack(e: Entry): (r: Option<Message>)
    ensures r.Some? <==>
      e.firstName.Some? && e.lastName.Some? && e.email.Some? && e.subject.Some? && e.message.Some?
  {
    if e.firstName.Some? && e.lastName.Some? && e.email.Some? && e.subject.Some? && e.message.Some?
    then Some(Message(e.firstName.value, e.lastName.value, e.email.value, e.phone,
                      e.subject.value, e.message.value))
    else None
  }

  /** collectFormData on a form holding `m`. Building a form's FormData
      skips disabled controls (the HTML standard's "constructing the entry
      list"), so once the inputs are disabled nothing typed is read; while
      they are enabled the record reads back as exactly `m`. */
  function CollectFormData(m: Message, disabled: bool): (r: Entry)
    ensures disabled ==> r == BLANK_ENTRY && ReadBack(r).None?
    ensures !disabled ==> ReadBack(r) == Some(m)
  {
    if disabled then BLANK_ENTRY
    else Entry(Some(m.firstName), Some(m.lastName), Some(m.email), m.phone, Some(m.subject), Some(m.message))
  }

  /** The page state: the re-entry flag, the record in flight, and the
      stored records, newest first. */
  datatype Page = Page(formSubmitting: bool, pending: Option<Entry>, messages: seq<Entry>)

  /** submitContactForm as written: ignored while a submission is in
      flight and when the form is invalid; otherwise the flag is set,
      `showSubmissionState` disables every input, and only then is the form
      collected, so the record put in flight is blank. The validation is
      that of `SubmitContactForm`. */
  function SubmitContactFormAsWritten(p: Page, m: Message): (r: Page)
    ensures r != p <==> !p.formSubmitting && ValidateForm(m)
    ensures r != p ==> r.formSubmitting && r.messages == p.messages && r.pending == Some(BLANK_ENTRY)
  {
    if p.formSubmitting then p
    else if !ValidateForm(m) then p
    else p.(formSubmitting := true, pending := Some(CollectFormData(m, true)))
  }

  /** submitContactForm with the form collected before the inputs are
      disabled (as the checkout page does): ignored while a submission is in
      flight and when the form is invalid; otherwise a record that reads
      back as `m` goes in flight. */
  function SubmitContactForm(p: Page, m: Message): (r: Page)
    ensures p.formSubmitting ==> r == p
    ensures !p.formSubmitting && !ValidateForm(m) ==> r == p
    ensures r != p <==> !p.formSubmitting && ValidateForm(m)
    ensures r != p ==>
      r.formSubmitting && r.messages == p.messages && r.pending.Some? && ReadBack(r.pending.value) == Some(m)
  {
    if p.formSubmitting then p
    else if !ValidateForm(m) then p
    else p.(formSubmitting := true, pending := Some(CollectFormData(m, false)))
  }

  /** A second submit while the first is in flight changes nothing. */
  lemma SubmitTwice(p: Page, m1: Message, m2: Message)
    ensures var q := SubmitContactForm(p, m1);
      q != p ==> SubmitContactForm(q, m2) == q
  {
  }

  /** saveContactMessage: newest first, at most fifty kept. */
  function SaveContactMessage(messages: seq<Entry>, e: Entry): (r: seq<Entry>)
    ensures |r| == History.Min(|messages| + 1, MESSAGE_CAP)
    ensures r[0] == e
    ensures r[1..] == messages[..|r| - 1]
  {
    History.Push(messages, e, MESSAGE_CAP)
  }

  /** handleSubmissionSuccess: store the record it is handed and clear the
      flag. */
  function HandleSubmissionSuccess(p: Page, e: Entry): (r: Page)
    ensures !r.formSubmitting
    ensures r.messages == SaveContactMessage(p.messages, e)
    ensures |p.messages| <= MESSAGE_CAP ==> |r.messages| <= MESSAGE_CAP
  {
    Page(false, None, SaveContactMessage(p.messages, e))
  }

  /** handleSubmissionError: clear the flag, store nothing. */
  function HandleSubmissionError(p: Page): (r: Page)
    ensures !r.formSubmitting && r.messages == p.messages
  {
    Page(false, None, p.messages)
  }

  /** As written, a completed submission of a valid form stores a record
      holding none of the typed fields: every one reads as null and the
      phone as ''. */
  lemma StoredEntryBlankAsWritten(p: Page, m: Message)
    requires !p.formSubmitting && ValidateForm(m)
    ensures var q := SubmitContactFormAsWritten(p, m);
      q.pending.Some? &&
      var stored := HandleSubmissionSuccess(q, q.pending.value).messages[0];
      stored == BLANK_ENTRY && ReadBack(stored).None? && stored.firstName != Some(m.firstName)
  {
  }

  /** With the form collected first, a completed submission of a valid form
      stores a record that reads back as the message, and reopens the form
      for the next one. */
  lemma SubmitThenSucceed(p: Page, m: Message)
    requires !p.formSubmitting && ValidateForm(m)
    ensures var q := SubmitContactForm(p, m);
      q.pending.Some? &&
      var done := HandleSubmissionSuccess(q, q.pending.value);
      ReadBack(done.messages[0]) == Some(m) && !done.formSubmitting
      && SubmitContactForm(done, m).formSubmitting
  {
  }

  // ---------------------------------------------------------------------
  // Opening hours

  /** Opening and closing minute of the day, for `Date.getDay()` values
      0 (Sunday) to 6 (Saturday). */
  function Hours(day: int): (r: (int, int))
    requires 0 <= day <= 6
    ensures r.0 == (if day == 0 then 12 * 60 else 11 * 60)
    ensures r.1 == (if day == 0 then 21 * 60 else if day <= 4 then 22 * 60 else 23 * 60)
  {
    if day == 0 then (720, 1260)
    else if day <= 4 then (660, 1320)
    else (660, 1380)
  }

  /** The open/closed status: open from the opening minute through the
      closing minute, both included. */
  predicate IsOpen(day: int, minute: int)
    requires 0 <= day <= 6
    ensures IsOpen(day, minute) ==> 660 <= minute <= 1380
    ensures 720 <= minute <= 1260 ==> IsOpen(day, minute)
  {
    Hours(day).0 <= minute <= Hours(day).1
  }

  /** Every day opens before it closes, at 11:00 or noon, and the place is
      closed in the morning and past 23:00 every day. */
  lemma HoursFacts(day: int, minute: int)
    requires 0 <= day <= 6
    ensures Hours(day).0 < Hours(day).1
    ensures IsOpen(day, Hours(day).0) && IsOpen(day, Hours(day).1)
    ensures minute < 660 || minute > 1380 ==> !IsOpen(day, minute)
    ensures 720 <= minute <= 1260 ==> IsOpen(day, minute)
  {
  }
}
