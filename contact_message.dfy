/** The server's `ContactMessage` model and its validation attributes. */
module ContactMessageModel {
  import opened Common

  datatype ContactMessage = ContactMessage(
    name: string,
    email: string,
    message: string,
    submittedAt: DateTime)

  /** The parameterless constructor: the three texts start empty and `SubmittedAt`
      keeps the default `DateTime`. */
  function Default(): (m: ContactMessage)
    ensures m.name == "" && m.email == "" && m.message == ""
    ensures m.submittedAt == MinValue
  {
    ContactMessage("", "", "", MinValue)
  }

  /** The model is valid when `Name`, `Email` and `Message` are required-valid and `Email`
      passes the `[EmailAddress]` check, which is the framework's and is given here as
      `isEmail`. `SubmittedAt` carries no attribute. */
  predicate IsValid(m: ContactMessage, isEmail: string -> bool) {
    && Required(m.name)
    && Required(m.email) && isEmail(m.email)
    && Required(m.message)
  }

  /** What validity means for a message: the three texts each keep something once trimmed,
      and the email text passes the `[EmailAddress]` check. */
  lemma ValidIffTrimmedAndEmail(m: ContactMessage, isEmail: string -> bool)
    ensures IsValid(m, isEmail) <==>
      && Trim(m.name) != "" && Trim(m.email) != "" && Trim(m.message) != ""
      && isEmail(m.email)
  {
    TrimEmptyIffBlank(m.name);
    TrimEmptyIffBlank(m.email);
    TrimEmptyIffBlank(m.message);
  }

  /** A freshly constructed message is never valid: its name is empty. */
  lemma DefaultIsInvalid(isEmail: string -> bool)
    ensures !IsValid(Default(), isEmail)
  {
  }

  /** Validity is decided by the three texts alone, never by the timestamp. */
  lemma ValidityIgnoresTimestamp(m: ContactMessage, at: DateTime, isEmail: string -> bool)
    ensures IsValid(m.(submittedAt := at), isEmail) == IsValid(m, isEmail)
  {
  }

  /** A message whose name, email or message trims to nothing is refused. */
  lemma BlankFieldInvalid(m: ContactMessage, isEmail: string -> bool)
    requires Trim(m.name) == "" || Trim(m.email) == "" || Trim(m.message) == ""
    ensures !IsValid(m, isEmail)
  {
    TrimEmptyIffBlank(m.name);
    TrimEmptyIffBlank(m.email);
    TrimEmptyIffBlank(m.message);
  }
}
