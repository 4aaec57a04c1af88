/** The booking form schema: the field rules of `bookingSchema` and `validateBooking`, which parses
    a form and reports every broken rule, field by field in the schema's order. */
module BookingValidation {

  import opened Wrappers
  import opened Strings
  import opened Patterns

  const NameTooShort := "Name must be at least 2 characters"
  const NameTooLong := "Name must be less than 100 characters"
  const NameBadCharacters := "Name can only contain letters and spaces"
  const EmailInvalid := "Please enter a valid email address"
  const MobileInvalid := "Please enter a valid phone number (e.g., +1234567890)"
  const DateMissing := "Please select a date"
  const DateInPast := "Please select a future date"
  const EventIdMissing := "Event ID is required"

  // ---------------------------------------------------------------- name

  /** `[a-zA-Z\s\u0600-\u06FF]`, with `\s` written out as the characters JavaScript counts as
      white space or line terminators. */
  const NameClass: seq<(char, char)> := [
    ('a', 'z'), ('A', 'Z'), ('\t', '\r'), (' ', ' '), ('\U{00A0}', '\U{00A0}'),
    ('\U{1680}', '\U{1680}'), ('\U{2000}', '\U{200A}'), ('\U{2028}', '\U{2029}'),
    ('\U{202F}', '\U{202F}'), ('\U{205F}', '\U{205F}'), ('\U{3000}', '\U{3000}'),
    ('\U{FEFF}', '\U{FEFF}'), ('\U{0600}', '\U{06FF}')]

  /** `/^[a-zA-Z\s\u0600-\u06FF]+$/`. */
  const NamePattern := OneOrMore(Class(NameClass))

  predicate AsciiLetter(c: char) {
    'a' <= c <= 'z' || 'A' <= c <= 'Z'
  }

  /** The characters JavaScript's `\s` matches. */
  predicate JsWhitespace(c: char) {
    '\t' <= c <= '\r' || c == ' ' || c == '\U{00A0}' || c == '\U{1680}'
    || '\U{2000}' <= c <= '\U{200A}' || c == '\U{2028}' || c == '\U{2029}' || c == '\U{202F}'
    || c == '\U{205F}' || c == '\U{3000}' || c == '\U{FEFF}'
  }

  predicate ArabicBlock(c: char) {
    '\U{0600}' <= c <= '\U{06FF}'
  }

  predicate NameChar(c: char) {
    AsciiLetter(c) || JsWhitespace(c) || ArabicBlock(c)
  }

  /** The min, max and regex checks of the name, all of them run. */
  function NameIssues(name: string): seq<string> {
    (if |name| < 2 then [NameTooShort] else [])
    + (if |name| > 100 then [NameTooLong] else [])
    + (if Matches(NamePattern, name) then [] else [NameBadCharacters])
  }

  /** The name class holds the ASCII letters, JavaScript white space and the Arabic block, and nothing else. */
  lemma NameClassMembers(c: char)
    ensures InClass(c, NameClass) <==> NameChar(c)
  {
    if NameChar(c) {
      var i := if 'a' <= c <= 'z' then 0 else if 'A' <= c <= 'Z' then 1 else if '\t' <= c <= '\r' then 2
        else if c == ' ' then 3 else if c == '\U{00A0}' then 4 else if c == '\U{1680}' then 5
        else if '\U{2000}' <= c <= '\U{200A}' then 6 else if c == '\U{2028}' || c == '\U{2029}' then 7
        else if c == '\U{202F}' then 8 else if c == '\U{205F}' then 9 else if c == '\U{3000}' then 10
        else if c == '\U{FEFF}' then 11 else 12;
      assert NameClass[i].0 <= c <= NameClass[i].1;
    }
  }

  /** A name is accepted exactly when it has 2 to 100 characters, each an ASCII letter,
      JavaScript white space or a character of U+0600..U+06FF. */
  lemma NameAccepted(name: string)
    ensures NameIssues(name) == [] <==> 2 <= |name| <= 100 && forall i :: 0 <= i < |name| ==> NameChar(name[i])
  {
    OneOrMoreClass(NameClass, name);
    forall i | 0 <= i < |name| {
      NameClassMembers(name[i]);
    }
  }

  /** A name of one character, or of more than 100, is rejected whatever its characters. */
  lemma NameLengthRejects(name: string)
    requires |name| < 2 || |name| > 100
    ensures NameIssues(name) != []
    ensures |name| < 2 ==> NameTooShort in NameIssues(name)
    ensures |name| > 100 ==> NameTooLong in NameIssues(name)
  {
  }

  // ---------------------------------------------------------------- mobile

  const PlusClass: seq<(char, char)> := [('+', '+')]
  const NonZeroDigitClass: seq<(char, char)> := [('1', '9')]
  const DigitClass: seq<(char, char)> := [('0', '9')]

  /** `[1-9]\d{1,14}`. */
  const NationalNumber := Concat(Class(NonZeroDigitClass), Repeat(Class(DigitClass), 1, 14))

  /** `/^\+?[1-9]\d{1,14}$/`. */
  const MobilePattern := Concat(Optional(Class(PlusClass)), NationalNumber)

  /** The digits of a mobile number: everything after an optional leading '+'. */
  function MobileDigits(s: string): string {
    if |s| > 0 && s[0] == '+' then s[1..] else s
  }

  /** A direct description of the numbers the pattern admits: 2 to 15 digits, the first not 0,
      after an optional '+'. */
  predicate MobileShape(s: string) {
    var d := MobileDigits(s);
    2 <= |d| <= 15 && '1' <= d[0] <= '9' && forall i :: 1 <= i < |d| ==> IsDigit(d[i])
  }

  function MobileIssues(mobile: string): seq<string> {
    if Matches(MobilePattern, mobile) then [] else [MobileInvalid]
  }

  lemma NationalNumberExact(t: string)
    ensures Matches(NationalNumber, t)
            <==> 2 <= |t| <= 15 && '1' <= t[0] <= '9' && forall i :: 1 <= i < |t| ==> IsDigit(t[i])
  {
    ConcatClassFirst(NonZeroDigitClass, Repeat(Class(DigitClass), 1, 14), t);
    if |t| >= 1 {
      InSingleRange(t[0], '1', '9');
      RepeatClass(DigitClass, 1, 14, t[1..]);
      forall i | 0 <= i < |t[1..]| {
        InSingleRange(t[1..][i], '0', '9');
      }
      assert forall i :: 1 <= i < |t| ==> t[i] == t[1..][i - 1];
    }
  }

  /** The pattern accepts exactly the numbers of that shape. */
  lemma MobilePatternExact(s: string)
    ensures Matches(MobilePattern, s) <==> MobileShape(s)
  {
    ConcatOptionalFirst(Class(PlusClass), NationalNumber, s);
    ConcatClassFirst(PlusClass, NationalNumber, s);
    NationalNumberExact(s);
    if |s| >= 1 {
      InSingleRange(s[0], '+', '+');
      NationalNumberExact(s[1..]);
      assert forall i :: 1 <= i < |s[1..]| ==> s[1..][i] == s[i + 1];
    }
  }

  /** An accepted number has between 2 and 15 digits, the E.164 maximum (ITU-T Recommendation
      E.164, clause 6), and its first digit is not 0. */
  lemma MobileDigitCount(s: string)
    requires MobileIssues(s) == []
    ensures 2 <= |MobileDigits(s)| <= 15 && MobileDigits(s)[0] != '0'
    ensures |s| == |MobileDigits(s)| || |s| == |MobileDigits(s)| + 1
  {
    MobilePatternExact(s);
  }

  /** A number starting with 0 (with or without the '+') is rejected. */
  lemma MobileRejectsLeadingZero(s: string)
    requires (|s| > 0 && s[0] == '0') || (|s| > 1 && s[0] == '+' && s[1] == '0')
    ensures MobileIssues(s) == [MobileInvalid]
  {
    MobilePatternExact(s);
  }

  /** A character that is not a digit, other than one leading '+', makes the number invalid. */
  lemma MobileRejectsNonDigit(s: string, i: nat)
    requires i < |s| && !IsDigit(s[i]) && !(i == 0 && s[0] == '+')
    ensures MobileIssues(s) == [MobileInvalid]
  {
    MobilePatternExact(s);
  }

  /** The example the message itself gives is accepted. */
  lemma MobileExampleAccepted()
    ensures MobileIssues("+1234567890") == []
  {
    MobilePatternExact("+1234567890");
  }

  // ---------------------------------------------------------------- the whole form

  /** `data: unknown` for the five fields of the schema; `None` is a field that is missing or not a string. */
  datatype BookingInput = BookingInput(
    name: Option<string>, email: Option<string>, mobile: Option<string>, date: Option<string>,
    eventId: Option<string>)

  /** What a successful parse returns: the email lower-cased by the schema's `toLowerCase`. */
  datatype BookingForm = BookingForm(name: string, email: string, mobile: string, date: string, eventId: string)

  /** One reported problem: a field that is not a string, or a rule it breaks with that rule's message. */
  datatype Issue = Missing(path: string) | Invalid(path: string, message: string)

  function OrEmpty(v: Option<string>): string {
    if v.Some? then v.value else ""
  }

  function EmailIssues(emailWellFormed: bool): seq<string> {
    if emailWellFormed then [] else [EmailInvalid]
  }

  /** The `min(1)` check, then the future-date refinement, which also runs when the first failed. */
  function DateIssues(date: string, notPast: bool): seq<string> {
    (if |date| < 1 then [DateMissing] else []) + (if notPast then [] else [DateInPast])
  }

  function EventIdIssues(eventId: string): seq<string> {
    if |eventId| < 1 then [EventIdMissing] else []
  }

  /** The issues of one field: missing, or one issue per broken rule. */
  function Report(path: string, v: Option<string>, messages: seq<string>): (r: seq<Issue>)
    ensures forall i :: 0 <= i < |r| ==> r[i].path == path
    ensures r == [] <==> v.Some? && messages == []
  {
    if v.None? then [Missing(path)]
    else seq(|messages|, i requires 0 <= i < |messages| => Invalid(path, messages[i]))
  }

  /** All the issues of a form, in the order of the schema's fields. The email's syntax and the
      date's distance to today are judged outside the model and given as `emailWellFormed` and
      `dateNotPast`. */
  function Issues(data: BookingInput, emailWellFormed: bool, dateNotPast: bool): seq<Issue> {
    Report("name", data.name, NameIssues(OrEmpty(data.name)))
    + Report("email", data.email, EmailIssues(emailWellFormed))
    + Report("mobile", data.mobile, MobileIssues(OrEmpty(data.mobile)))
    + Report("date", data.date, DateIssues(OrEmpty(data.date), dateNotPast))
    + Report("eventId", data.eventId, EventIdIssues(OrEmpty(data.eventId)))
  }

  /** `validateBooking(data)`: the parsed form, or every issue found. */
  function ValidateBooking(data: BookingInput, emailWellFormed: bool, dateNotPast: bool)
    : Result<BookingForm, seq<Issue>>
  {
    var issues := Issues(data, emailWellFormed, dateNotPast);
    if issues == [] && data.name.Some? && data.email.Some? && data.mobile.Some? && data.date.Some?
       && data.eventId.Some?
    then
      Success(BookingForm(data.name.value, Lower(data.email.value), data.mobile.value, data.date.value,
                          data.eventId.value))
    else
      Failure(issues)
  }

  /** Every rule of a field holds. */
  predicate NameOk(v: Option<string>) {
    v.Some? && 2 <= |v.value| <= 100 && forall i :: 0 <= i < |v.value| ==> NameChar(v.value[i])
  }

  predicate EmailOk(v: Option<string>, emailWellFormed: bool) {
    v.Some? && emailWellFormed
  }

  predicate MobileOk(v: Option<string>) {
    v.Some? && MobileShape(v.value)
  }

  predicate DateOk(v: Option<string>, dateNotPast: bool) {
    v.Some? && v.value != "" && dateNotPast
  }

  predicate EventIdOk(v: Option<string>) {
    v.Some? && v.value != ""
  }

  lemma FieldReports(data: BookingInput, emailWellFormed: bool, dateNotPast: bool)
    ensures Report("name", data.name, NameIssues(OrEmpty(data.name))) == [] <==> NameOk(data.name)
    ensures Report("email", data.email, EmailIssues(emailWellFormed)) == [] <==> EmailOk(data.email, emailWellFormed)
    ensures Report("mobile", data.mobile, MobileIssues(OrEmpty(data.mobile))) == [] <==> MobileOk(data.mobile)
    ensures Report("date", data.date, DateIssues(OrEmpty(data.date), dateNotPast)) == [] <==> DateOk(data.date, dateNotPast)
    ensures Report("eventId", data.eventId, EventIdIssues(OrEmpty(data.eventId))) == [] <==> EventIdOk(data.eventId)
  {
    NameAccepted(OrEmpty(data.name));
    MobilePatternExact(OrEmpty(data.mobile));
  }

  /** The form is accepted exactly when every rule of every field holds; then the parsed form
      carries the fields, the email lower-cased. */
  lemma ValidateBookingAccepts(data: BookingInput, emailWellFormed: bool, dateNotPast: bool)
    ensures var r := ValidateBooking(data, emailWellFormed, dateNotPast);
      r.Success? <==> NameOk(data.name) && EmailOk(data.email, emailWellFormed) && MobileOk(data.mobile)
                      && DateOk(data.date, dateNotPast) && EventIdOk(data.eventId)
    ensures var r := ValidateBooking(data, emailWellFormed, dateNotPast);
      r.Success? ==> r.value.name == data.name.value && r.value.email == Lower(data.email.value)
                     && r.value.mobile == data.mobile.value && r.value.date == data.date.value
                     && r.value.eventId == data.eventId.value
  {
    FieldReports(data, emailWellFormed, dateNotPast);
  }

  /** Some issue is about `path`. */
  predicate Blames(issues: seq<Issue>, path: string) {
    exists i :: 0 <= i < |issues| && issues[i].path == path
  }

  lemma BlamesConcat(a: seq<Issue>, b: seq<Issue>, path: string)
    ensures Blames(a + b, path) <==> Blames(a, path) || Blames(b, path)
  {
    if Blames(a + b, path) {
      var i :| 0 <= i < |a + b| && (a + b)[i].path == path;
      if i >= |a| {
        assert b[i - |a|].path == path;
      }
    }
    if Blames(a, path) {
      var i :| 0 <= i < |a| && a[i].path == path;
      assert (a + b)[i].path == path;
    }
    if Blames(b, path) {
      var i :| 0 <= i < |b| && b[i].path == path;
      assert (a + b)[|a| + i].path == path;
    }
  }

  lemma BlamesReport(path: string, v: Option<string>, messages: seq<string>, other: string)
    ensures Blames(Report(path, v, messages), other) <==> other == path && Report(path, v, messages) != []
  {
    var r := Report(path, v, messages);
    if other == path && r != [] {
      assert r[0].path == path;
    }
  }

  /** Which of the five fields the issues of a form name. */
  lemma {:induction false} BlamesPath(data: BookingInput, emailWellFormed: bool, dateNotPast: bool, p: string)
    requires p in ["name", "email", "mobile", "date", "eventId"]
    ensures var f1 := Report("name", data.name, NameIssues(OrEmpty(data.name)));
      var f2 := Report("email", data.email, EmailIssues(emailWellFormed));
      var f3 := Report("mobile", data.mobile, MobileIssues(OrEmpty(data.mobile)));
      var f4 := Report("date", data.date, DateIssues(OrEmpty(data.date), dateNotPast));
      var f5 := Report("eventId", data.eventId, EventIdIssues(OrEmpty(data.eventId)));
      Blames(Issues(data, emailWellFormed, dateNotPast), p)
      <==> (p == "name" && f1 != []) || (p == "email" && f2 != []) || (p == "mobile" && f3 != [])
           || (p == "date" && f4 != []) || (p == "eventId" && f5 != [])
  {
    var f1 := Report("name", data.name, NameIssues(OrEmpty(data.name)));
    var f2 := Report("email", data.email, EmailIssues(emailWellFormed));
    var f3 := Report("mobile", data.mobile, MobileIssues(OrEmpty(data.mobile)));
    var f4 := Report("date", data.date, DateIssues(OrEmpty(data.date), dateNotPast));
    var f5 := Report("eventId", data.eventId, EventIdIssues(OrEmpty(data.eventId)));
    BlamesConcat(f1 + f2 + f3 + f4, f5, p);
    BlamesConcat(f1 + f2 + f3, f4, p);
    BlamesConcat(f1 + f2, f3, p);
    BlamesConcat(f1, f2, p);
    BlamesReport("name", data.name, NameIssues(OrEmpty(data.name)), p);
    BlamesReport("email", data.email, EmailIssues(emailWellFormed), p);
    BlamesReport("mobile", data.mobile, MobileIssues(OrEmpty(data.mobile)), p);
    BlamesReport("date", data.date, DateIssues(OrEmpty(data.date), dateNotPast), p);
    BlamesReport("eventId", data.eventId, EventIdIssues(OrEmpty(data.eventId)), p);
  }

  /** A rejected form names a field exactly when that field breaks one of its rules, so any single
      broken rule is reported against its own field and no valid field is blamed. */
  lemma ValidateBookingBlames(data: BookingInput, emailWellFormed: bool, dateNotPast: bool)
    ensures var r := ValidateBooking(data, emailWellFormed, dateNotPast);
      r.Failure? ==>
        && r.error != []
        && (Blames(r.error, "name") <==> !NameOk(data.name))
        && (Blames(r.error, "email") <==> !EmailOk(data.email, emailWellFormed))
        && (Blames(r.error, "mobile") <==> !MobileOk(data.mobile))
        && (Blames(r.error, "date") <==> !DateOk(data.date, dateNotPast))
        && (Blames(r.error, "eventId") <==> !EventIdOk(data.eventId))
  {
    FieldReports(data, emailWellFormed, dateNotPast);
    BlamesPath(data, emailWellFormed, dateNotPast, "name");
    BlamesPath(data, emailWellFormed, dateNotPast, "email");
    BlamesPath(data, emailWellFormed, dateNotPast, "mobile");
    BlamesPath(data, emailWellFormed, dateNotPast, "date");
    BlamesPath(data, emailWellFormed, dateNotPast, "eventId");
  }
}
