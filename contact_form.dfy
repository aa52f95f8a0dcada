/** The client's contact form: field values, which fields were visited, and the banners
    shown after a submission. */
module ContactFormState {
  import opened Common

  /** The three inputs, by their `name` attribute. */
  datatype Field = Name | Email | Message

  /** The form's `contact` state object. */
  datatype Contact = Contact(name: string, email: string, message: string)

  /** How the submission's fetch ended: a response with an ok status, a response with
      another status, or a thrown error (network failure). */
  datatype Response = Ok | NotOk | Thrown

  const EmptyContact := Contact("", "", "")
  const SuccessText := "Your message has been submitted successfully!"
  const ErrorText := "There was an error submitting your message."

  /** `contact[field]`. */
  function Get(c: Contact, field: Field): string {
    match field
    case Name => c.name
    case Email => c.email
    case Message => c.message
  }

  /** `{ ...c, [field]: value }`: only the named field takes the new value. */
  function Set(c: Contact, field: Field, value: string): (r: Contact)
    ensures Get(r, field) == value
    ensures forall f :: f != field ==> Get(r, f) == Get(c, f)
  {
    match field
    case Name => c.(name := value)
    case Email => c.(email := value)
    case Message => c.(message := value)
  }

  class ContactForm {
    var contact: Contact
    /** The fields whose `touched` entry is true; a missing entry reads as false. */
    var touched: set<Field>
    var successMessage: Option<string>
    var errorMessage: Option<string>

    constructor ()
      ensures contact == EmptyContact && touched == {}
      ensures successMessage == None && errorMessage == None
    {
      contact := EmptyContact;
      touched := {};
      successMessage := None;
      errorMessage := None;
    }

    /** `isInvalid(field)`: visited, and blank once trimmed. */
    predicate IsInvalid(field: Field)
      reads this
    {
      field in touched && Trim(Get(contact, field)) == ""
    }

    /** An input changed: its field takes the typed value; nothing else moves. */
    method HandleChange(field: Field, value: string)
      modifies this
      ensures Get(contact, field) == value
      ensures forall f :: f != field ==> Get(contact, f) == Get(old(contact), f)
      ensures touched == old(touched)
      ensures successMessage == old(successMessage) && errorMessage == old(errorMessage)
    {
      contact := Set(contact, field, value);
    }

    /** An input lost focus: it is marked touched; other flags are kept. */
    method HandleBlur(field: Field)
      modifies this
      ensures touched == old(touched) + {field}
      ensures contact == old(contact)
      ensures successMessage == old(successMessage) && errorMessage == old(errorMessage)
    {
      touched := touched + {field};
    }

    /** The form was submitted: `sent` is the body posted, and `response` is how the
        request ended. */
    method HandleSubmit(response: Response) returns (sent: Contact)
      modifies this
      ensures sent == old(contact)
      ensures response == Ok ==>
        && successMessage == Some(SuccessText) && errorMessage == None
        && contact == EmptyContact && touched == {}
      ensures response == NotOk ==>
        && successMessage == None && errorMessage == Some(ErrorText)
        && contact == old(contact) && touched == old(touched)
      ensures response == Thrown ==>
        && successMessage == None && errorMessage == old(errorMessage)
        && contact == old(contact) && touched == old(touched)
    {
      sent := contact;
      match response
      case Ok =>
        successMessage := Some(SuccessText);
        contact := EmptyContact;
        touched := {};
        errorMessage := None;
      case NotOk =>
        errorMessage := Some(ErrorText);
        successMessage := None;
      case Thrown =>
        successMessage := None;
    }
  }

  /** A field is flagged exactly when it was visited and holds only white space. */
  lemma InvalidIffTouchedAndBlank(form: ContactForm, field: Field)
    ensures form.IsInvalid(field) <==> field in form.touched && Blank(Get(form.contact, field))
  {
    TrimEmptyIffBlank(Get(form.contact, field));
  }

  /** A field never visited is never flagged, whatever it holds. */
  lemma UntouchedNeverInvalid(form: ContactForm, field: Field)
    requires field !in form.touched
    ensures !form.IsInvalid(field)
  {
  }

  /** Typing into one field, visiting it, and leaving it blank flags that field alone
      among the fields that were clean before. */
  method BlankAfterVisit(field: Field, value: string) returns (flagged: set<Field>)
    requires Blank(value)
    ensures flagged == {field}
  {
    var form := new ContactForm();
    form.HandleChange(field, value);
    form.HandleBlur(field);
    TrimEmptyIffBlank(value);
    flagged := set f | f in {Name, Email, Message} && form.IsInvalid(f);
    assert forall f :: f != field ==> !form.IsInvalid(f);
  }

  /** After a successful submission no field is flagged, since nothing is touched. */
  method NothingFlaggedAfterSuccess(form: ContactForm) returns (flagged: set<Field>)
    modifies form
    ensures flagged == {}
  {
    var _ := form.HandleSubmit(Ok);
    flagged := set f | f in {Name, Email, Message} && form.IsInvalid(f);
  }
}
