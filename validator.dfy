/** The client-side field validator (`validate`): at most one message per
    field, and the form is valid exactly when no field has one. */
module Validator {
  import opened Wrappers
  import opened Text
  import opened PhoneFilter
  import opened ContactModel

  /** The keys of the error object. */
  datatype Field = Name | Email | Phone

  /** The messages `validate` can put under a field. */
  datatype ErrorMessage = NameRequired | EmailRequired | EmailInvalid | PhoneRequired | PhoneInvalid

  /** The text shown for each message. */
  function MessageText(m: ErrorMessage): string {
    match m
    case NameRequired => "Name is required, maximum length allowed is 30 characters"
    case EmailRequired => "Email is required, maximum length allowed is 40 characters"
    case EmailInvalid => "Enter a valid email"
    case PhoneRequired => "Phone is required, must be 7-15 digits long (with optional +)"
    case PhoneInvalid => "Enter a valid phone number (digits only, optional leading +)"
  }

  /** The character class `[^\s@]`. */
  predicate InSegment(c: char) {
    !IsWhitespace(c) && c != '@'
  }

  /** `[^\s@]+`: a non-empty run of characters that are neither white space nor `@`. */
  predicate IsSegment(t: string) {
    |t| > 0 && forall i :: 0 <= i < |t| ==> InSegment(t[i])
  }

  /** `/^[^\s@]+@[^\s@]+\.[^\s@]+$/` as the regular expression reads: the
      string splits into a local part, `@`, a domain, `.`, and a final part,
      each part a segment. */
  ghost predicate EmailPattern(s: string) {
    exists at, dot :: EmailSplit(s, at, dot)
  }

  /** `s` reads as segment, `@` at `at`, segment, `.` at `dot`, segment. */
  predicate EmailSplit(s: string, at: int, dot: int) {
    0 <= at < dot < |s| && s[at] == '@' && s[dot] == '.'
    && IsSegment(s[..at]) && IsSegment(s[at + 1..dot]) && IsSegment(s[dot + 1..])
  }

  /** The email test as one scan: the text before the first `@` is a segment,
      and the text after it is a segment holding a `.` that is neither its
      first nor its last character. */
  predicate EmailMatches(s: string) {
    match IndexOf(s, '@')
    case None => false
    case Some(at) =>
      var domain := s[at + 1..];
      IsSegment(s[..at]) && IsSegment(domain) && 3 <= |domain| && '.' in domain[1..|domain| - 1]
  }

  lemma EmailMatchesSound(s: string)
    requires EmailMatches(s)
    ensures EmailPattern(s)
  {
    var at := IndexOf(s, '@').value;
    var domain := s[at + 1..];
    var k :| 0 <= k < |domain[1..|domain| - 1]| && domain[1..|domain| - 1][k] == '.';
    var dot := at + 2 + k;
    assert s[dot] == '.';
    assert s[at + 1..dot] == domain[..k + 1];
    assert s[dot + 1..] == domain[k + 2..];
    assert IsSegment(s[at + 1..dot]);
    assert IsSegment(s[dot + 1..]);
    assert EmailSplit(s, at, dot);
  }

  /** Two segments joined by a `.` form one segment. */
  lemma JoinAtDot(a: string, b: string)
    requires IsSegment(a) && IsSegment(b)
    ensures IsSegment(a + ['.'] + b)
  {
    var t := a + ['.'] + b;
    assert InSegment('.');
    forall i | 0 <= i < |t| ensures InSegment(t[i]) {
      if i < |a| {
        assert t[i] == a[i];
      } else if i > |a| {
        assert t[i] == b[i - |a| - 1];
      }
    }
  }

  lemma SplitAt(s: string, from: nat, k: nat)
    requires from <= k < |s|
    ensures s[from..] == s[from..k] + [s[k]] + s[k + 1..]
  {
  }

  lemma EmailMatchesComplete(s: string)
    requires EmailPattern(s)
    ensures EmailMatches(s)
  {
    var at, dot :| EmailSplit(s, at, dot);
    FirstAt(s, at);
    DomainShape(s, at, dot);
  }

  /** The `@` after a segment is the first one. */
  lemma FirstAt(s: string, at: nat)
    requires at < |s| && s[at] == '@' && IsSegment(s[..at])
    ensures IndexOf(s, '@') == Some(at)
  {
    forall i | 0 <= i < at ensures s[i] != '@' {
      assert InSegment(s[..at][i]);
    }
    IndexOfFirst(s, '@', at);
  }

  /** What follows the `@` of a split is a segment with a `.` inside it. */
  lemma DomainShape(s: string, at: int, dot: int)
    requires EmailSplit(s, at, dot)
    ensures var domain := s[at + 1..];
            IsSegment(domain) && 3 <= |domain| && '.' in domain[1..|domain| - 1]
  {
    var domain := s[at + 1..];
    var a, b := s[at + 1..dot], s[dot + 1..];
    SplitAt(s, at + 1, dot);
    JoinAtDot(a, b);
    assert domain[1..|domain| - 1][|a| - 1] == '.';
  }

  /** The scan accepts exactly the strings the regular expression matches. */
  lemma EmailMatchesPattern(s: string)
    ensures EmailMatches(s) <==> EmailPattern(s)
  {
    if EmailMatches(s) { EmailMatchesSound(s); }
    if EmailPattern(s) { EmailMatchesComplete(s); }
  }

  /** An accepted email holds exactly one `@`, after its first character, and
      no white space anywhere. */
  lemma EmailPatternShape(s: string)
    requires EmailPattern(s)
    ensures !IsBlank(s)
    ensures forall i :: 0 <= i < |s| ==> !IsWhitespace(s[i])
    ensures exists at :: 0 < at < |s| && s[at] == '@' && '@' !in s[..at] && '@' !in s[at + 1..]
  {
    EmailMatchesComplete(s);
    var at := IndexOf(s, '@').value;
    var domain := s[at + 1..];
    assert s == s[..at] + ['@'] + domain;
    forall i | 0 <= i < |s| ensures !IsWhitespace(s[i]) {
      if i < at {
        assert s[i] == s[..at][i];
      } else if i > at {
        assert s[i] == domain[i - at - 1];
      }
    }
    assert !IsWhitespace(s[0]);
  }

  /** `/^\+?[0-9]{7,14}$/`: after an optional leading `+`, 7 to 14 digits. */
  predicate PhoneMatches(s: string) {
    var digits := if |s| > 0 && s[0] == '+' then s[1..] else s;
    7 <= |digits| <= 14 && AllDigits(digits)
  }

  /** An accepted phone has 7 to 15 characters, all digits but for an
      optional leading `+`, and the live filter leaves it unchanged. */
  lemma PhoneMatchesShape(s: string)
    requires PhoneMatches(s)
    ensures 7 <= |s| <= 15
    ensures IsPhoneChar(s[0]) && forall i :: 0 < i < |s| ==> IsDigit(s[i])
    ensures FilterPhone(s) == s
  {
    if s[0] == '+' {
      var digits := s[1..];
      forall i | 0 < i < |s| ensures IsDigit(s[i]) {
        assert s[i] == digits[i - 1];
      }
      PlusDigitsFixed(digits);
      assert s == "+" + digits;
    } else {
      DigitsFixed(s);
    }
  }

  lemma PlusDigitsFixed(d: string)
    requires AllDigits(d)
    ensures FilterPhone("+" + d) == "+" + d
  {
    var s := "+" + d;
    FilterPhoneShape(s);
    assert LeadsWithPlus(s);
    DigitsConcat("+", d);
    DigitsOfDigits(d);
  }

  lemma DigitsFixed(d: string)
    requires AllDigits(d)
    ensures FilterPhone(d) == d
  {
    FilterPhoneShape(d);
    DigitsOfDigits(d);
    assert !LeadsWithPlus(d) by {
      forall i | 0 <= i < |d| ensures d[i] != '+' {
        assert IsDigit(d[i]);
      }
    }
  }

  /** A value produced by the live filter passes the format check exactly when
      7 to 14 digits were typed. */
  lemma FilteredPhoneMatches(s: string)
    ensures PhoneMatches(FilterPhone(s)) <==> 7 <= |Digits(s)| <= 14
  {
    FilterPhoneShape(s);
    var r := FilterPhone(s);
    if LeadsWithPlus(s) {
      assert r[1..] == Digits(s);
    } else if r != [] {
      assert r[0] != '+';
    }
  }

  /** A blank value matches neither pattern, so its "required" message is the
      one that shows. */
  lemma BlankMatchesNoPattern(s: string)
    ensures IsBlank(s) ==> !EmailPattern(s) && !PhoneMatches(s)
  {
    if EmailPattern(s) { EmailPatternShape(s); }
    if PhoneMatches(s) { PhoneMatchesShape(s); }
  }

  /** The name's message: "required" when it trims to empty. */
  function NameError(name: string): Option<ErrorMessage> {
    if Trim(name) == [] then Some(NameRequired) else None
  }

  /** The email's message: "required" when it trims to empty, otherwise the
      format message when the scan does not accept it. */
  function EmailError(email: string): Option<ErrorMessage> {
    if Trim(email) == [] then Some(EmailRequired)
    else if !EmailMatches(email) then Some(EmailInvalid)
    else None
  }

  /** The phone's message: "required" when it trims to empty, otherwise the
      format message when the pattern does not match it. */
  function PhoneError(phone: string): Option<ErrorMessage> {
    if Trim(phone) == [] then Some(PhoneRequired)
    else if !PhoneMatches(phone) then Some(PhoneInvalid)
    else None
  }

  /** The name gets a message exactly when every character of it is white
      space, and the message is the name's "required" text. */
  lemma NameErrorSpec(name: string)
    ensures NameError(name).Some? <==> IsBlank(name)
    ensures NameError(name).Some? ==> NameError(name).value == NameRequired
  {
  }

  /** The email gets a message exactly when the regular expression does not
      match it: "required" when it is blank, the format message otherwise. */
  lemma EmailErrorSpec(email: string)
    ensures EmailError(email).Some? <==> !EmailPattern(email)
    ensures EmailError(email).Some? ==>
              EmailError(email).value == if IsBlank(email) then EmailRequired else EmailInvalid
  {
    EmailMatchesPattern(email);
    BlankMatchesNoPattern(email);
  }

  /** The phone gets a message exactly when the pattern does not match it:
      "required" when it is blank, the format message otherwise. */
  lemma PhoneErrorSpec(phone: string)
    ensures PhoneError(phone).Some? <==> !PhoneMatches(phone)
    ensures PhoneError(phone).Some? ==>
              PhoneError(phone).value == if IsBlank(phone) then PhoneRequired else PhoneInvalid
  {
    BlankMatchesNoPattern(phone);
  }

  /** `newErrors.f = message` when there is a message. */
  function SetError(errors: map<Field, ErrorMessage>, f: Field, e: Option<ErrorMessage>): (r: map<Field, ErrorMessage>)
    ensures f in r <==> f in errors || e.Some?
    ensures e.Some? ==> r[f] == e.value
    ensures e.None? ==> r == errors
    ensures forall g :: g != f ==> (g in r <==> g in errors)
    ensures forall g :: g != f && g in r ==> r[g] == errors[g]
  {
    if e.Some? then errors[f := e.value] else errors
  }

  /** `validate`'s `newErrors`, built by the same conditional assignments. */
  function FieldErrors(c: Contact): map<Field, ErrorMessage>
  {
    var afterName := SetError(map[], Name, NameError(c.name));
    var afterEmail := SetError(afterName, Email, EmailError(c.email));
    SetError(afterEmail, Phone, PhoneError(c.phone))
  }

  /** Each field's key is present exactly when that field has a message, and
      holds the "required" message for a blank value, the format message
      otherwise. */
  lemma FieldErrorsSpec(c: Contact)
    ensures Name in FieldErrors(c) <==> IsBlank(c.name)
    ensures Name in FieldErrors(c) ==> FieldErrors(c)[Name] == NameRequired
    ensures Email in FieldErrors(c) <==> !EmailPattern(c.email)
    ensures Email in FieldErrors(c) ==>
              FieldErrors(c)[Email] == if IsBlank(c.email) then EmailRequired else EmailInvalid
    ensures Phone in FieldErrors(c) <==> !PhoneMatches(c.phone)
    ensures Phone in FieldErrors(c) ==>
              FieldErrors(c)[Phone] == if IsBlank(c.phone) then PhoneRequired else PhoneInvalid
  {
    NameErrorSpec(c.name);
    EmailErrorSpec(c.email);
    PhoneErrorSpec(c.phone);
    var afterName := SetError(map[], Name, NameError(c.name));
    assert Email !in afterName && Phone !in afterName;
    var afterEmail := SetError(afterName, Email, EmailError(c.email));
    assert Name in afterEmail <==> IsBlank(c.name);
    assert Email in afterEmail <==> !EmailPattern(c.email);
    assert Phone !in afterEmail;
  }

  /** `Object.keys(newErrors).length === 0`. */
  predicate IsValid(c: Contact) {
    |FieldErrors(c)| == 0
  }

  /** The form is valid exactly when the name is not blank, the email matches
      its pattern and the phone matches its pattern. */
  lemma IsValidIff(c: Contact)
    ensures IsValid(c) <==> !IsBlank(c.name) && EmailPattern(c.email) && PhoneMatches(c.phone)
  {
    FieldErrorsSpec(c);
    var errors := FieldErrors(c);
    if Name !in errors && Email !in errors && Phone !in errors {
      forall f: Field ensures f !in errors {
        match f
        case Name =>
        case Email =>
        case Phone =>
      }
      assert errors == map[];
    } else {
      assert errors != map[];
    }
  }

  /** "a@b.com" is a well-formed email. */
  lemma ShortEmailMatches(e: string)
    requires e == "a@b.com"
    ensures EmailPattern(e)
  {
    assert EmailSplit(e, 1, 3) by {
      assert e[..1] == "a";
      assert e[2..3] == "b";
      assert e[4..] == "com";
    }
  }

  /** "1234567" is a well-formed phone number: seven digits. */
  lemma ShortPhoneMatches(p: string)
    requires p == "1234567"
    ensures PhoneMatches(p)
  {
    assert p[0] != '+';
  }

  /** "+14155550100" is a well-formed phone number: a `+` and eleven digits. */
  lemma AnnPhoneMatches(p: string)
    requires p == "+14155550100"
    ensures PhoneMatches(p)
  {
    assert p[1..] == "14155550100";
  }

  /** "ann@x.com" is a well-formed email. */
  lemma AnnEmailMatches(e: string)
    requires e == "ann@x.com"
    ensures EmailPattern(e)
  {
    assert EmailSplit(e, 3, 5) by {
      assert e[..3] == "ann";
      assert e[4..5] == "x";
      assert e[6..] == "com";
    }
  }

  /** A draft with a name, a well-formed email and an international phone
      number passes every check. */
  lemma ValidExample(c: Contact)
    requires c == Contact("Ann", "ann@x.com", "+14155550100")
    ensures IsValid(c)
  {
    assert !IsWhitespace(c.name[0]);
    AnnEmailMatches(c.email);
    AnnPhoneMatches(c.phone);
    IsValidIff(c);
  }

  /** An empty name with a valid email and phone fails on the name only. */
  lemma NameOnlyExample(c: Contact)
    requires c == Contact("", "a@b.com", "1234567")
    ensures FieldErrors(c) == map[Name := NameRequired]
  {
    NameErrorSpec(c.name);
    ShortEmailMatches(c.email);
    EmailErrorSpec(c.email);
    ShortPhoneMatches(c.phone);
    PhoneErrorSpec(c.phone);
    var afterName := SetError(map[], Name, NameError(c.name));
    assert afterName == map[Name := NameRequired];
    var afterEmail := SetError(afterName, Email, EmailError(c.email));
    assert afterEmail == afterName;
  }
}
