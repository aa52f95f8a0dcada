/** The server-rendered contact page: submissions are validated and logged in memory. */
module Mvc {
  import opened Common
  import opened ContactMessageModel

  const SuccessText := "Your message has been submitted successfully!"
  const ErrorText := "There was an error submitting your message. Please check the inputs."

  /** The action every submission is redirected to. */
  const ContactAction := "Contact"

  class MVCController {
    /** The process-wide message log, oldest first. */
    var messages: seq<ContactMessage>
    /** The status text handed to the next request through TempData["Message"]. */
    var tempMessage: Option<string>

    constructor ()
      ensures messages == [] && tempMessage == None
    {
      messages := [];
      tempMessage := None;
    }

    /** Logs a valid submission stamped with `now`; an invalid one only sets the error
        text. Either way the answer is a redirect to the Contact action. `isEmail` is the
        framework's email-address check; `now` is the clock reading. */
    method SubmitMessage(contact: ContactMessage, now: DateTime, isEmail: string -> bool)
      returns (redirectTo: string)
      modifies this
      ensures redirectTo == ContactAction
      ensures old(messages) <= messages
      ensures IsValid(contact, isEmail) ==>
        && messages == old(messages) + [contact.(submittedAt := now)]
        && tempMessage == Some(SuccessText)
      ensures !IsValid(contact, isEmail) ==>
        && messages == old(messages)
        && tempMessage == Some(ErrorText)
    {
      if IsValid(contact, isEmail) {
        var stamped := contact.(submittedAt := now);
        messages := messages + [stamped];
        tempMessage := Some(SuccessText);
      } else {
        tempMessage := Some(ErrorText);
      }
      redirectTo := ContactAction;
    }

    /** The whole log, in the order the messages were submitted. */
    method ViewMessages() returns (model: seq<ContactMessage>)
      ensures model == messages
    {
      model := messages;
    }
  }

  /** Two submissions in a row: the log holds exactly the valid ones, in order, each
      stamped with the time it was accepted. */
  method SubmitTwice(first: ContactMessage, second: ContactMessage, t1: DateTime, t2: DateTime,
                     isEmail: string -> bool)
    returns (log: seq<ContactMessage>)
    ensures log ==
      (if IsValid(first, isEmail) then [first.(submittedAt := t1)] else []) +
      (if IsValid(second, isEmail) then [second.(submittedAt := t2)] else [])
  {
    var controller := new MVCController();
    var _ := controller.SubmitMessage(first, t1, isEmail);
    var _ := controller.SubmitMessage(second, t2, isEmail);
    log := controller.ViewMessages();
  }
}
