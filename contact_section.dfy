/** The older contact form (`ContactSection`): the same submission logic as
    the page's contact form over six text fields (there is no preferred
    contact field). */
module ContactSection {
  import opened Wrappers
  import opened EmailCheck

  /** The `name` attributes of the form's inputs. */
  datatype Field = Name | Email | Subject | Message | OpportunityType | Company

  /** The `formData` state record. */
  datatype FormData = FormData(
    name: string,
    email: string,
    subject: string,
    message: string,
    opportunityType: string,
    company: string)

  /** The initial record, and the one the form is reset to after sending. */
  const EmptyForm := FormData("", "", "", "", "", "")

  /** The value of one field (`formData[name]`). */
  function Get(f: FormData, field: Field): string {
    match field
    case Name => f.name
    case Email => f.email
    case Subject => f.subject
    case Message => f.message
    case OpportunityType => f.opportunityType
    case Company => f.company
  }

  /** `{ ...prev, [name]: value }`: the named field takes the new value and
      every other field keeps its old one. */
  function WithField(f: FormData, field: Field, value: string): (g: FormData)
    ensures Get(g, field) == value
    ensures forall other :: other != field ==> Get(g, other) == Get(f, other)
  {
    match field
    case Name => f.(name := value)
    case Email => f.(email := value)
    case Subject => f.(subject := value)
    case Message => f.(message := value)
    case OpportunityType => f.(opportunityType := value)
    case Company => f.(company := value)
  }

  /** The outcome of the checks in `handleSubmit`; the two rejections are the
      two error notifications. */
  datatype Verdict = MissingRequired | InvalidEmail | Accepted

  /** The notifications the form raises. */
  datatype Toast = RequiredFieldsError | InvalidEmailError | SentSuccessfully

  /** The required-field check (name, email and message must be non-empty
      strings, with no trimming) followed by the e-mail check. */
  function Validate(f: FormData): (v: Verdict)
    ensures v == MissingRequired <==> f.name == "" || f.email == "" || f.message == ""
    ensures v == InvalidEmail <==>
              f.name != "" && f.email != "" && f.message != "" && !MatchesEmailPattern(f.email)
    ensures v == Accepted <==> f.name != "" && f.message != "" && MatchesEmailPattern(f.email)
  {
    EmailCheckMatchesPattern(f.email);
    if f.name == "" || f.email == "" || f.message == "" then MissingRequired
    else if !IsValidEmail(f.email) then InvalidEmail
    else Accepted
  }

  /** Only name, email and message take part in the verdict: the optional
      fields never change it. */
  lemma OptionalFieldsIgnored(f: FormData, field: Field, value: string)
    requires field != Name && field != Email && field != Message
    ensures Validate(WithField(f, field, value)) == Validate(f)
  {
    var g := WithField(f, field, value);
    assert Get(g, Name) == Get(f, Name);
    assert Get(g, Email) == Get(f, Email);
    assert Get(g, Message) == Get(f, Message);
  }

  /** The component state: `formData`, `isSubmitting`, and the number of
      delayed success steps (the `setTimeout` callbacks) still to fire. */
  class ContactForm {
    var formData: FormData
    var isSubmitting: bool
    var pendingResets: nat

    /** With the send button disabled while submitting, a success step is
        pending exactly while the form is submitting. */
    predicate Valid()
      reads this
    {
      pendingResets == (if isSubmitting then 1 else 0)
    }

    constructor ()
      ensures Valid()
      ensures formData == EmptyForm && !isSubmitting && pendingResets == 0
    {
      formData := EmptyForm;
      isSubmitting := false;
      pendingResets := 0;
    }

    /** `handleInputChange`: replace one field. */
    method HandleInputChange(field: Field, value: string)
      modifies this
      ensures formData == WithField(old(formData), field, value)
      ensures isSubmitting == old(isSubmitting) && pendingResets == old(pendingResets)
    {
      formData := WithField(formData, field, value);
    }

    /** `handleSubmit`: a rejection raises its notification, keeps the input
        and clears `isSubmitting`; an acceptance keeps the input, leaves the
        form submitting and schedules the success step. */
    method HandleSubmit() returns (toast: Option<Toast>)
      modifies this
      ensures formData == old(formData)
      ensures Validate(formData) == MissingRequired ==>
                toast == Some(RequiredFieldsError) && !isSubmitting && pendingResets == old(pendingResets)
      ensures Validate(formData) == InvalidEmail ==>
                toast == Some(InvalidEmailError) && !isSubmitting && pendingResets == old(pendingResets)
      ensures Validate(formData) == Accepted ==>
                toast == None && isSubmitting && pendingResets == old(pendingResets) + 1
    {
      isSubmitting := true;
      var verdict := Validate(formData);
      if verdict == MissingRequired {
        isSubmitting := false;
        return Some(RequiredFieldsError);
      }
      if verdict == InvalidEmail {
        isSubmitting := false;
        return Some(InvalidEmailError);
      }
      pendingResets := pendingResets + 1;
      toast := None;
    }

    /** The send button: disabled while submitting, otherwise it submits the form. */
    method PressSend() returns (toast: Option<Toast>)
      requires Valid()
      modifies this
      ensures Valid()
      ensures old(isSubmitting) ==> toast == None && formData == old(formData) && isSubmitting
      ensures !old(isSubmitting) ==>
                && formData == old(formData)
                && (isSubmitting <==> Validate(formData) == Accepted)
                && (toast == None <==> Validate(formData) == Accepted)
    {
      if isSubmitting {
        return None;
      }
      toast := HandleSubmit();
    }

    /** The delayed success step: the success notification, every field
        reset to "", and `isSubmitting` cleared. */
    method SuccessStep() returns (toast: Toast)
      requires pendingResets > 0
      modifies this
      ensures toast == SentSuccessfully
      ensures formData == EmptyForm && !isSubmitting
      ensures pendingResets == old(pendingResets) - 1
      ensures old(Valid()) ==> Valid()
    {
      formData := EmptyForm;
      isSubmitting := false;
      pendingResets := pendingResets - 1;
      toast := SentSuccessfully;
    }
  }
}
