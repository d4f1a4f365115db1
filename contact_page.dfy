/** The contact form: editing its four fields, the submission with its three
    outcomes, the timer that returns the status to idle, and the label of
    the send button. */
module ContactPage {

  /** The four inputs of the form, by their `name` attribute. */
  datatype Field = Name | Email | Subject | Message

  datatype FormData = FormData(name: string, email: string, subject: string, message: string)

  const EmptyForm: FormData := FormData("", "", "", "")

  datatype Status = Idle | Success | Error

  /** How the request to `/api/contact` ended: an ok response, a response
      that is not ok, or a thrown error. */
  datatype Reply = Ok | NotOk | Threw

  /** The value of one field. */
  function Get(form: FormData, f: Field): string {
    match f
    case Name => form.name
    case Email => form.email
    case Subject => form.subject
    case Message => form.message
  }

  /** `{ ...prev, [name]: value }`: the named field takes the new value and
      the other three keep theirs. */
  function WithField(form: FormData, f: Field, value: string): (r: FormData)
    ensures Get(r, f) == value
    ensures forall g :: g != f ==> Get(r, g) == Get(form, g)
  {
    match f
    case Name => form.(name := value)
    case Email => form.(email := value)
    case Subject => form.(subject := value)
    case Message => form.(message := value)
  }

  /** Two forms with the same fields are the same form. */
  lemma FieldsDetermineForm(a: FormData, b: FormData)
    requires forall f :: Get(a, f) == Get(b, f)
    ensures a == b
  {
    assert Get(a, Name) == Get(b, Name) && Get(a, Email) == Get(b, Email);
    assert Get(a, Subject) == Get(b, Subject) && Get(a, Message) == Get(b, Message);
  }

  /** Typing twice into one field keeps the last value; edits of different
      fields commute; rewriting a field's own value changes nothing. */
  lemma EditsCompose(form: FormData, f: Field, g: Field, a: string, b: string)
    ensures WithField(WithField(form, f, a), f, b) == WithField(form, f, b)
    ensures f != g ==> WithField(WithField(form, f, a), g, b) == WithField(WithField(form, g, b), f, a)
    ensures WithField(form, f, Get(form, f)) == form
  {
    FieldsDetermineForm(WithField(WithField(form, f, a), f, b), WithField(form, f, b));
    if f != g {
      FieldsDetermineForm(WithField(WithField(form, f, a), g, b), WithField(WithField(form, g, b), f, a));
    }
    FieldsDetermineForm(WithField(form, f, Get(form, f)), form);
  }

  const ResetMs: nat := 3000

  /** The form's state. `pendingResets` counts the 3000 ms timers set by
      finished submissions that have not fired yet. */
  class Contact {
    var formData: FormData
    var isSubmitting: bool
    var submitStatus: Status
    var pendingResets: nat

    constructor()
      ensures formData == EmptyForm && !isSubmitting && submitStatus == Idle && pendingResets == 0
    {
      formData := EmptyForm;
      isSubmitting := false;
      submitStatus := Idle;
      pendingResets := 0;
    }

    /** `handleInputChange`. */
    method InputChange(f: Field, value: string)
      modifies this`formData
      ensures formData == WithField(old(formData), f, value)
    {
      formData := WithField(formData, f, value);
    }

    /** The start of `handleSubmit`: the form is marked as submitting and
        its current data is what the request sends. */
    method BeginSubmit() returns (body: FormData)
      modifies this`isSubmitting
      ensures isSubmitting && body == formData
    {
      isSubmitting := true;
      body := formData;
    }

    /** The end of `handleSubmit`: success clears the form, a refusal or an
        error keeps it; each sets a reset timer, and submitting is over
        whatever happened. */
    method CompleteSubmit(reply: Reply)
      modifies this`formData, this`isSubmitting, this`submitStatus, this`pendingResets
      ensures !isSubmitting && pendingResets == old(pendingResets) + 1
      ensures reply == Ok ==> submitStatus == Success && formData == EmptyForm
      ensures reply != Ok ==> submitStatus == Error && formData == old(formData)
    {
      if reply == Ok {
        submitStatus := Success;
        formData := EmptyForm;
        pendingResets := pendingResets + 1;
      } else if reply == NotOk {
        submitStatus := Error;
        pendingResets := pendingResets + 1;
      } else {
        submitStatus := Error;
        pendingResets := pendingResets + 1;
      }
      isSubmitting := false;
    }

    /** A reset timer fires: back to idle, whatever the status is now. */
    method ResetFires()
      requires pendingResets > 0
      modifies this`submitStatus, this`pendingResets
      ensures submitStatus == Idle && pendingResets == old(pendingResets) - 1
    {
      submitStatus := Idle;
      pendingResets := pendingResets - 1;
    }
  }

  /** A full submission followed by its timer: the status is idle again,
      submitting is over, and the form is empty exactly when the request
      succeeded. */
  method SubmitRoundTrip(page: Contact, reply: Reply)
    modifies page
    ensures page.submitStatus == Idle && !page.isSubmitting
    ensures page.pendingResets == old(page.pendingResets)
    ensures reply == Ok ==> page.formData == EmptyForm
    ensures reply != Ok ==> page.formData == old(page.formData)
  {
    var _ := page.BeginSubmit();
    page.CompleteSubmit(reply);
    page.ResetFires();
  }

  /** What the send button shows. */
  datatype Label = CheckIcon | Caption(text: string)

  /** The label inside the button: a check after success, "Error Sending"
      after an error, "Send Message" otherwise. */
  function ButtonLabel(status: Status): (l: Label)
    ensures l == CheckIcon <==> status == Success
    ensures l == Caption("Error Sending") <==> status == Error
    ensures l == Caption("Send Message") <==> status == Idle
  {
    match status
    case Success => CheckIcon
    case Error => Caption("Error Sending")
    case Idle => Caption("Send Message")
  }

  /** Each status has its own label, so the button tells the three apart. */
  lemma LabelsTellStatus(s: Status, t: Status)
    requires ButtonLabel(s) == ButtonLabel(t)
    ensures s == t
  {
  }

  /** The button while submitting: disabled, label hidden, spinner shown;
      otherwise enabled with the label visible. */
  datatype ButtonView = ButtonView(disabled: bool, labelVisible: bool, spinner: bool, shows: Label)

  function Button(isSubmitting: bool, status: Status): (v: ButtonView)
    ensures v.disabled == isSubmitting == v.spinner == !v.labelVisible
    ensures v.shows == ButtonLabel(status)
  {
    ButtonView(isSubmitting, !isSubmitting, isSubmitting, ButtonLabel(status))
  }
}
