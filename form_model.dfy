/** The state of the contact form as one value, and what `handleSubmit` does
    to it: the pure description the `ContactForm` class is proved against. */
module FormModel {
  import opened ContactModel
  import opened Validator
  import opened Submission

  /** The component's state: the draft, the messages under the fields, the
      snackbars shown so far, the bodies of the create calls made so far, and
      how many times the stored list has been reloaded. */
  datatype FormState = FormState(contact: Contact, errors: map<Field, ErrorMessage>,
                                 notices: seq<Notice>, createCalls: seq<Contact>,
                                 listFetches: nat)

  /** The retry loop run on the current draft. */
  function AfterRetry(s: FormState, outcomes: seq<bool>): FormState {
    var r := Retry(outcomes);
    s.(createCalls := s.createCalls + Repeat(s.contact, r.calls),
       notices := s.notices + r.notices,
       contact := if r.succeeded then EmptyContact else s.contact,
       listFetches := s.listFetches + if r.succeeded then 1 else 0)
  }

  /** One submit: the messages are replaced by the draft's, and only a draft
      without messages goes through the retry loop. */
  function Submit(s: FormState, outcomes: seq<bool>): FormState {
    var errors := FieldErrors(s.contact);
    var shown := s.(errors := errors);
    if |errors| == 0 then AfterRetry(shown, outcomes) else shown
  }

  /** A submit always shows the draft's messages. A draft with a message
      makes no create call and changes nothing else: no snackbar, no reload,
      the draft stays as typed. */
  lemma SubmitInvalidDraft(s: FormState, outcomes: seq<bool>)
    ensures Submit(s, outcomes).errors == FieldErrors(s.contact)
    ensures !IsValid(s.contact) ==> Submit(s, outcomes) == s.(errors := FieldErrors(s.contact))
  {
  }

  /** The create calls and the draft after the retry loop: the draft is
      posted once per attempt, at least once and at most `MaxRetries` times,
      and the attempts stop at the first ok answer. The draft is cleared and
      the list reloaded exactly when some allowed attempt gets an ok answer;
      otherwise the draft is kept for the user to retry. */
  lemma RetryCalls(s: FormState, outcomes: seq<bool>)
    ensures var t := AfterRetry(s, outcomes);
            var sent := t.createCalls[|s.createCalls|..];
            var ok := exists i :: 0 <= i < MaxRetries && Responds(outcomes, i);
            |s.createCalls| <= |t.createCalls|
            && t.createCalls[..|s.createCalls|] == s.createCalls
            && 1 <= |sent| <= MaxRetries
            && (forall i :: 0 <= i < |sent| ==> sent[i] == s.contact)
            && (forall i :: 0 <= i < |sent| - 1 ==> !Responds(outcomes, i))
            && (ok <==> Responds(outcomes, |sent| - 1))
            && (!ok ==> |sent| == MaxRetries)
            && t.contact == (if ok then EmptyContact else s.contact)
            && t.listFetches == s.listFetches + (if ok then 1 else 0)
  {
    var r := Retry(outcomes);
    RetryStopsAtFirstOk(outcomes);
    var t := AfterRetry(s, outcomes);
    assert t.createCalls[|s.createCalls|..] == Repeat(s.contact, r.calls);
  }

  /** The snackbars after the retry loop: one per attempt; each failure but
      the last is a warning naming its attempt number, and the last is the
      success message or the final error. */
  lemma RetryNoticesShown(s: FormState, outcomes: seq<bool>)
    ensures var t := AfterRetry(s, outcomes);
            var shown := t.notices[|s.notices|..];
            |s.notices| <= |t.notices| && t.notices[..|s.notices|] == s.notices
            && |shown| == |t.createCalls| - |s.createCalls|
            && (forall i :: 0 <= i < |shown| - 1 ==> shown[i] == RetryWarning(i + 1))
            && shown[|shown| - 1] == (if Retry(outcomes).succeeded then Submitted else AllFailed(MaxRetries))
  {
    RetryNotices(outcomes);
    var t := AfterRetry(s, outcomes);
    assert t.notices[|s.notices|..] == Retry(outcomes).notices;
  }

  /** A valid draft goes through the retry loop with no message shown. */
  lemma SubmitValidDraft(s: FormState, outcomes: seq<bool>)
    requires IsValid(s.contact)
    ensures Submit(s, outcomes) == AfterRetry(s.(errors := map[]), outcomes)
  {
  }

  /** The empty draft has a message (the name is blank), so a successful
      submit leaves a draft that cannot be submitted again as it is, and a
      failed one never looks like a cleared form. */
  lemma EmptyDraftInvalid()
    ensures !IsValid(EmptyContact)
  {
    FieldErrorsSpec(EmptyContact);
  }
}
