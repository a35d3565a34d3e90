/** The contact form (src/components/LetsTalk.tsx): four text fields, a
    submit handler that refuses an incomplete form, posts the fields to the
    mailer and then clears the form, and a button label that shows progress. */
module LetsTalk {
  import opened Common

  datatype Field = Name | Subject | Email | Message

  datatype FormData = FormData(name: string, subject: string, email: string, message: string)

  const EmptyForm: FormData := FormData("", "", "", "")

  function Get(f: FormData, field: Field): string
  {
    match field
    case Name => f.name
    case Subject => f.subject
    case Email => f.email
    case Message => f.message
  }

  /** `{ ...prevState, [name]: value }` */
  function Set(f: FormData, field: Field, value: string): (r: FormData)
    ensures Get(r, field) == value
    ensures forall other :: other != field ==> Get(r, other) == Get(f, other)
  {
    match field
    case Name => f.(name := value)
    case Subject => f.(subject := value)
    case Email => f.(email := value)
    case Message => f.(message := value)
  }

  /** The submit guard: every field is filled in. */
  predicate IsComplete(f: FormData)
  {
    f.name != "" && f.email != "" && f.subject != "" && f.message != ""
  }

  lemma IsCompleteMeansNoEmptyField(f: FormData)
    ensures IsComplete(f) <==> forall field :: Get(f, field) != ""
  {
    if !IsComplete(f) {
      if f.name == "" { assert Get(f, Name) == ""; }
      else if f.email == "" { assert Get(f, Email) == ""; }
      else if f.subject == "" { assert Get(f, Subject) == ""; }
      else { assert Get(f, Message) == ""; }
    }
  }

  const MailerUrl: string := "https://mailer.geethg.com/reactiveshots/send"
  const FormContentType: string := "application/x-www-form-urlencoded"

  /** One POST to the mailer: its URL, content type and the form parameters
      in the order `URLSearchParams` lists them. */
  datatype MailRequest = MailRequest(url: string, contentType: string, body: seq<(string, string)>)

  /** The parameter names, in the order the body lists them. */
  const NameKey: string := "name"
  const EmailKey: string := "email"
  const SubjectKey: string := "subject"
  const MessageKey: string := "message"

  lemma KeysDistinct()
    ensures NameKey != EmailKey && NameKey != SubjectKey && NameKey != MessageKey
    ensures EmailKey != SubjectKey && EmailKey != MessageKey && SubjectKey != MessageKey
  {
    assert NameKey[0] != EmailKey[0] && NameKey[0] != SubjectKey[0] && EmailKey[0] != SubjectKey[0];
    assert NameKey[0] != MessageKey[0] && EmailKey[0] != MessageKey[0] && SubjectKey[0] != MessageKey[0];
  }

  function Request(f: FormData): MailRequest
  {
    MailRequest(MailerUrl, FormContentType,
      [(NameKey, f.name), (EmailKey, f.email), (SubjectKey, f.subject), (MessageKey, f.message)])
  }

  /** The request carries exactly the four fields, each under its own name. */
  lemma RequestCarriesFields(f: FormData)
    ensures Param(Request(f).body, NameKey) == Some(f.name)
    ensures Param(Request(f).body, EmailKey) == Some(f.email)
    ensures Param(Request(f).body, SubjectKey) == Some(f.subject)
    ensures Param(Request(f).body, MessageKey) == Some(f.message)
    ensures forall key :: key !in {NameKey, EmailKey, SubjectKey, MessageKey} ==> Param(Request(f).body, key).None?
  {
    KeysDistinct();
    var b := Request(f).body;
    var b1 := [(EmailKey, f.email), (SubjectKey, f.subject), (MessageKey, f.message)];
    var b2 := [(SubjectKey, f.subject), (MessageKey, f.message)];
    var b3 := [(MessageKey, f.message)];
    assert b[1..] == b1 && b1[1..] == b2 && b2[1..] == b3;
    ParamHead(b, NameKey);
    ParamSkip(b, EmailKey);
    ParamHead(b1, EmailKey);
    ParamSkip(b, SubjectKey);
    ParamSkip(b1, SubjectKey);
    ParamHead(b2, SubjectKey);
    ParamSkip(b, MessageKey);
    ParamSkip(b1, MessageKey);
    ParamSkip(b2, MessageKey);
    ParamHead(b3, MessageKey);
  }

  /** The submit button's label. */
  function ButtonLabel(isSubmitting: bool): (r: string)
    ensures r == "Sending..." <==> isSubmitting
    ensures r == "Send" <==> !isSubmitting
  {
    if isSubmitting then "Sending..." else "Send"
  }

  /** The state of the `LetsTalk` component, with the requests posted so far. */
  class ContactForm {
    var formData: FormData
    var isSubmitting: bool
    ghost var sent: seq<MailRequest>

    constructor ()
      ensures formData == EmptyForm && !isSubmitting && sent == []
    {
      formData := EmptyForm;
      isSubmitting := false;
      sent := [];
    }

    /** Typing into one field. */
    method HandleChange(field: Field, value: string)
      modifies this`formData
      ensures formData == Set(old(formData), field, value)
      ensures Get(formData, field) == value
      ensures forall other :: other != field ==> Get(formData, other) == Get(old(formData), other)
    {
      formData := Set(formData, field, value);
    }

    /** `handleSubmit` up to the `await`: an incomplete form changes nothing;
        a complete one shows progress and posts its four values. */
    method BeginSubmit() returns (posted: bool)
      modifies this`isSubmitting, this`sent
      ensures posted == IsComplete(old(formData))
      ensures !posted ==> isSubmitting == old(isSubmitting) && sent == old(sent)
      ensures posted ==> isSubmitting && sent == old(sent) + [Request(formData)]
      ensures formData == old(formData)
    {
      if formData.name == "" || formData.email == "" || formData.subject == "" || formData.message == "" {
        return false;
      }
      isSubmitting := true;
      sent := sent + [Request(formData)];
      posted := true;
    }

    /** `handleSubmit` after the posted request has completed. When the
        request fails instead, the handler stops at the `await`, and the
        state stays as `BeginSubmit` left it. */
    method FinishSubmit()
      modifies this`isSubmitting, this`formData
      ensures !isSubmitting && formData == EmptyForm
    {
      isSubmitting := false;
      formData := EmptyForm;
    }

    /** A submit whose request completes before anything else happens. */
    method HandleSubmit()
      modifies this
      ensures !IsComplete(old(formData)) ==>
                formData == old(formData) && isSubmitting == old(isSubmitting) && sent == old(sent)
      ensures IsComplete(old(formData)) ==>
                sent == old(sent) + [Request(old(formData))] && !isSubmitting && formData == EmptyForm
    {
      var posted := BeginSubmit();
      if posted {
        FinishSubmit();
      }
    }
  }
}
