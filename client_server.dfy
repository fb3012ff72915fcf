/** How the form's check and the controller's check relate: the body the form
    posts, and which drafts each side accepts. */
module ClientServer {
  import opened Wrappers
  import opened Text
  import opened ContactModel
  import opened Validator
  import opened ContactsApi

  /** `JSON.stringify(contact)` bound back into the controller's `Contact`:
      the form always sends all three strings. */
  function ToRecord(c: Contact): ContactRecord {
    ContactRecord(Some(c.name), Some(c.email), Some(c.phone))
  }

  /** A draft that passes the form's check passes the controller's presence
      check exactly when its name holds a character .NET does not count as
      white space: the email holds an `@` and the phone holds digits, so only
      the name can be blank to .NET and not to JavaScript. */
  lemma ValidDraftAccepted(c: Contact)
    requires IsValid(c)
    ensures !HasMissingField(ToRecord(c)) <==> !IsNullOrWhiteSpace(Some(c.name))
  {
    IsValidIff(c);
    EmailNotBlankToDotNet(c.email);
    PhoneNotBlankToDotNet(c.phone);
  }

  lemma EmailNotBlankToDotNet(email: string)
    requires EmailPattern(email)
    ensures !IsNullOrWhiteSpace(Some(email))
  {
    EmailPatternShape(email);
    var at :| 0 < at < |email| && email[at] == '@' && '@' !in email[..at] && '@' !in email[at + 1..];
    assert !IsDotNetWhiteSpace(email[at]);
  }

  lemma PhoneNotBlankToDotNet(phone: string)
    requires PhoneMatches(phone)
    ensures !IsNullOrWhiteSpace(Some(phone))
  {
    PhoneMatchesShape(phone);
    assert !IsDotNetWhiteSpace(phone[1]);
  }

  /** A name is blank to .NET but not to JavaScript exactly when it is made
      of .NET white space and holds a U+0085, which only .NET counts as white
      space. */
  lemma BlankOnlyToDotNet(name: string)
    ensures !IsBlank(name) && IsNullOrWhiteSpace(Some(name))
            <==> '\U{0085}' in name && IsNullOrWhiteSpace(Some(name))
  {
    if !IsBlank(name) && IsNullOrWhiteSpace(Some(name)) {
      var i :| 0 <= i < |name| && !IsWhitespace(name[i]);
      WhiteSpaceSetsDiffer(name[i]);
    }
    if '\U{0085}' in name {
      var i :| 0 <= i < |name| && name[i] == '\U{0085}';
      assert !IsWhitespace(name[i]);
    }
  }

  /** Such a draft exists: a name of a space and a U+0085 passes the form,
      and the controller refuses it with 400. */
  lemma RefusedValidDraft(c: Contact)
    requires c == Contact(" \U{0085}", "a@b.com", "1234567")
    ensures IsValid(c) && HasMissingField(ToRecord(c))
  {
    assert !IsWhitespace(c.name[1]);
    ShortEmailMatches(c.email);
    ShortPhoneMatches(c.phone);
    IsValidIff(c);
  }

  /** The draft `ValidExample` shows the form accepts is stored by the
      controller too. */
  lemma ValidExampleStored(c: Contact)
    requires c == Contact("Ann", "ann@x.com", "+14155550100")
    ensures !HasMissingField(ToRecord(c))
  {
    assert !IsDotNetWhiteSpace(c.name[0]);
    assert !IsDotNetWhiteSpace(c.email[0]);
    assert !IsDotNetWhiteSpace(c.phone[0]);
  }

  /** The controller checks presence only: a draft whose fields all hold a
      non-white-space character is stored even when the email has no `@`,
      which the form would refuse. */
  lemma ServerSkipsFormat(c: Contact)
    requires !IsNullOrWhiteSpace(Some(c.name)) && !IsNullOrWhiteSpace(Some(c.email))
    requires !IsNullOrWhiteSpace(Some(c.phone))
    requires '@' !in c.email
    ensures !HasMissingField(ToRecord(c)) && !IsValid(c)
  {
    IsValidIff(c);
    if EmailPattern(c.email) {
      EmailPatternShape(c.email);
    }
  }
}
