/**
 * The contact form's submit handler (`initializeContactForm`): the message
 * is taken only when name, email and message are all filled in, and the
 * form is then reset.
 */
module Contact {
  import opened Strings
  import opened Notifications

  /** The values of the form's three fields, as typed (they are not
      trimmed). */
  datatype ContactForm = ContactForm(name: string, email: string, message: string)

  /** The form after `reset()`: its fields have no default values, so they
      are empty. */
  const EmptyForm: ContactForm := ContactForm("", "", "")

  const ThanksNotice: Notification :=
    Notification("Thank you for your message! We'll get back to you within 24 hours.", "success")

  const MissingFieldNotice: Notification :=
    Notification("Please fill in all fields before submitting.", "error")

  /** `name && email && message`: a string is truthy when it is not empty. */
  predicate AllFilled(form: ContactForm) {
    form.name != [] && form.email != [] && form.message != []
  }

  /** Submitting the form: the thank-you banner and a reset form when every
      field is filled in, the error banner and the form untouched
      otherwise. */
  function SubmitContact(form: ContactForm): (r: (Notification, ContactForm))
    ensures r.0 == ThanksNotice <==> AllFilled(form)
    ensures r.0 == ThanksNotice ==> r.1 == EmptyForm
    ensures r.0 != ThanksNotice ==> r.0 == MissingFieldNotice && r.1 == form
  {
    if AllFilled(form) then (ThanksNotice, EmptyForm) else (MissingFieldNotice, form)
  }

  /** Whitespace counts as filled in: the fields are not trimmed, so a form
      whose fields hold only whitespace is accepted as long as none is
      empty. */
  lemma BlankFieldsAccepted(form: ContactForm)
    requires IsBlank(form.name) && IsBlank(form.email) && IsBlank(form.message)
    requires form.name != [] && form.email != [] && form.message != []
    ensures SubmitContact(form).0 == ThanksNotice
    ensures SubmitContact(form).1 == EmptyForm
  {
  }

  /** Pressing submit again right after a successful submission fails: the
      form was reset, and nothing is sent twice. */
  lemma ResubmitFails(form: ContactForm)
    ensures SubmitContact(SubmitContact(form).1).0 == MissingFieldNotice
    ensures !AllFilled(form) ==> SubmitContact(SubmitContact(form).1) == SubmitContact(form)
  {
  }
}
