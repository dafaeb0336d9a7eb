/** The contact page of src/pages/Contact.tsx: a three-box form that posts
    its contents to the contact-email function and is emptied only when the
    reply is ok.  The reply of the network call is a parameter. */
module Contact {
  import opened Types
  import opened JsString

  datatype ContactForm = ContactForm(name: string, email: string, message: string)

  const EmptyForm := ContactForm("", "", "")

  datatype Field = Name | Email | Message

  function FieldValue(form: ContactForm, f: Field): string {
    match f
    case Name => form.name
    case Email => form.email
    case Message => form.message
  }

  /** `setForm(prev => ({ ...prev, [field]: value }))` for one of the boxes. */
  function EditField(form: ContactForm, f: Field, value: string): (r: ContactForm)
    ensures FieldValue(r, f) == value
    ensures forall g: Field :: g != f ==> FieldValue(r, g) == FieldValue(form, g)
  {
    match f
    case Name => form.(name := value)
    case Email => form.(email := value)
    case Message => form.(message := value)
  }

  /** All three boxes are non-blank once trimmed. */
  predicate Complete(form: ContactForm) {
    !IsBlank(form.name) && !IsBlank(form.email) && !IsBlank(form.message)
  }

  /** How the call ended: a response with its `ok` flag, or `fetch` threw. */
  datatype Reply = Responded(ok: bool) | Threw

  datatype Notice = Error(message: string) | Success(message: string)

  const MissingFields := "Please fill in all fields."
  const SendFailed := "Failed to send message."
  const Sent := "Message sent! We'll get back to you soon."
  const WentWrong := "Something went wrong."

  /** One submission: the body posted, if any, the notice shown and the form afterwards. */
  datatype Submission = Submission(request: Option<ContactForm>, notice: Notice, form: ContactForm)

  /** `handleSubmit` on the form as it stands. */
  function Submitted(form: ContactForm, reply: Reply): (s: Submission)
    ensures s.request.None? <==> !Complete(form)
    ensures !Complete(form) ==> s.notice == Error(MissingFields)
    ensures s.notice.Success? ==> s.notice == Success(Sent)
    ensures s.request.Some? ==> s.request.value == form
    ensures s.notice.Success? <==> Complete(form) && reply == Responded(true)
    ensures s.notice.Success? ==> s.form == EmptyForm
    ensures !s.notice.Success? ==> s.form == form
    ensures s.notice == Error(SendFailed) <==> Complete(form) && reply == Responded(false)
    ensures s.notice == Error(WentWrong) <==> Complete(form) && reply == Threw
  {
    if !Complete(form) then Submission(None, Error(MissingFields), form)
    else
      match reply
      case Threw => Submission(Some(form), Error(WentWrong), form)
      case Responded(ok) =>
        if ok then Submission(Some(form), Success(Sent), EmptyForm)
        else Submission(Some(form), Error(SendFailed), form)
  }

  /** After a successful send the form cannot be sent again until it is refilled. */
  lemma ResetBlocksResend(form: ContactForm, reply: Reply, again: Reply)
    requires Submitted(form, reply).notice.Success?
    ensures Submitted(Submitted(form, reply).form, again).request.None?
  {
    assert TrimEnd(TrimStart("")) == "";
  }

  class ContactPage {
    var form: ContactForm

    /** `useState({ name: '', email: '', message: '' })` */
    constructor ()
      ensures form == EmptyForm
    {
      form := EmptyForm;
    }

    method Edit(f: Field, value: string)
      modifies this
      ensures form == EditField(old(form), f, value)
    {
      form := EditField(form, f, value);
    }

    method Submit(reply: Reply) returns (request: Option<ContactForm>, notice: Notice)
      modifies this
      ensures Submission(request, notice, form) == Submitted(old(form), reply)
    {
      if !Complete(form) {
        return None, Error(MissingFields);
      }
      request := Some(form);
      match reply {
        case Threw =>
          notice := Error(WentWrong);
        case Responded(ok) =>
          if !ok {
            notice := Error(SendFailed);
            return;
          }
          notice := Success(Sent);
          form := EmptyForm;
      }
    }
  }
}
