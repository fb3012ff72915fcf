/** The `ContactForm` component: its React state as fields, its handlers as
    methods that update them. */
module ContactFormComponent {
  import opened ContactModel
  import opened PhoneFilter
  import opened Validator
  import opened Submission
  import opened FormModel

  class ContactForm {
    /** `contact`: the draft being edited. */
    var contact: Contact
    /** `errors`: the message shown under each field that has one. */
    var errors: map<Field, ErrorMessage>
    /** Every snackbar shown so far, oldest first; the last one is on screen. */
    var notices: seq<Notice>
    /** The body of every POST to the create endpoint, in order. */
    var createCalls: seq<Contact>
    /** How many times `fetchContacts` has reloaded the stored list. */
    var listFetches: nat

    /** The first render: an empty draft, no errors, and the list loaded once
        by the mount effect. */
    constructor()
      ensures contact == EmptyContact && errors == map[]
      ensures notices == [] && createCalls == [] && listFetches == 1
    {
      contact := EmptyContact;
      errors := map[];
      notices := [];
      createCalls := [];
      listFetches := 1;
    }

    /** `handleChange`: the edited field takes the typed value as it is. */
    method HandleChange(field: Field, value: string)
      modifies this`contact
      ensures contact == match field
                         case Name => old(contact).(name := value)
                         case Email => old(contact).(email := value)
                         case Phone => old(contact).(phone := value)
    {
      match field
      case Name => contact := contact.(name := value);
      case Email => contact := contact.(email := value);
      case Phone => contact := contact.(phone := value);
    }

    /** `handlePhoneChange`: the phone takes the filtered value, the other
        fields are kept. */
    method HandlePhoneChange(input: string)
      modifies this`contact
      ensures contact == old(contact).(phone := FilterPhone(input))
    {
      contact := contact.(phone := FilterPhone(input));
    }

    /** The whole state as one value. */
    ghost function State(): FormState
      reads this
    {
      FormState(contact, errors, notices, createCalls, listFetches)
    }

    /** `validate`: shows the draft's messages and reports whether there are
        none; the draft itself is not touched. */
    method Validate() returns (valid: bool)
      modifies this`errors
      ensures errors == FieldErrors(contact)
      ensures valid <==> |errors| == 0
    {
      var draft := contact;
      var newErrors := FieldErrors(draft);
      errors := newErrors;
      assert contact == draft;
      valid := |newErrors| == 0;
    }

    /** `handleSubmit`: the new state is the one `Submit` describes. */
    method HandleSubmit(outcomes: seq<bool>)
      modifies this
      ensures State() == Submit(old(State()), outcomes)
    {
      ghost var before := State();
      var valid := Validate();
      ghost var shown := State();
      assert shown == before.(errors := FieldErrors(before.contact));
      if valid {
        SubmitWithRetry(outcomes);
      }
    }

    /** The loop of `handleSubmit` after validation: the draft is posted until
        the first ok answer, at most `MaxRetries` times, with the snackbars,
        the clearing of the draft and the list reload that `Retry` describes. */
    method SubmitWithRetry(outcomes: seq<bool>)
      modifies this`contact, this`notices, this`createCalls, this`listFetches
      ensures State() == AfterRetry(old(State()), outcomes)
    {
      ghost var before := State();
      ghost var firstOk := FirstOk(outcomes, 0);
      var attempts := 0;
      var success := false;
      while attempts < MaxRetries && !success
        invariant 0 <= attempts <= firstOk && !success
        invariant contact == old(contact) && listFetches == old(listFetches)
        invariant createCalls == old(createCalls) + Repeat(old(contact), attempts)
        invariant notices == old(notices) + if attempts < MaxRetries then Warnings(attempts)
                                            else Warnings(MaxRetries - 1) + [AllFailed(MaxRetries)]
        decreases MaxRetries - attempts
      {
        RepeatSnoc(contact, attempts);
        WarningsSnoc(attempts);
        attempts := attempts + 1;
        createCalls := createCalls + [contact];
        if Responds(outcomes, attempts - 1) {
          notices := notices + [Submitted];
          contact := EmptyContact;
          listFetches := listFetches + 1;
          success := true;
          break;
        }
        if attempts < MaxRetries {
          notices := notices + [RetryWarning(attempts)];
        } else {
          notices := notices + [AllFailed(MaxRetries)];
        }
      }
      ghost var r := Retry(outcomes);
      assert r.calls == attempts && r.succeeded == success;
      assert State() == before.(createCalls := createCalls, notices := notices, contact := contact,
                                listFetches := listFetches);
    }
  }
}
