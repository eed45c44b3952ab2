/**
 * The contact form of components/Contact.tsx: four text fields, a change
 * handler that updates the field an input names, and a simulated submission
 * that starts by marking the form as submitting and completes, after a fixed
 * delay, by clearing the form. Submission cannot fail.
 */
module Contact {

  /** The inputs of the form, by their `name` attribute. */
  datatype Field = Name | Email | Subject | Message

  /** The form's draft. */
  datatype FormData = FormData(name: string, email: string, subject: string, message: string)
  {
    /** The value of one field. */
    function Get(f: Field): string
    {
      match f
      case Name => name
      case Email => email
      case Subject => subject
      case Message => message
    }

    /** `{ ...prev, [name]: value }`: the named field takes the new value, the others keep theirs. */
    function Set(f: Field, value: string): (r: FormData)
      ensures r.Get(f) == value
      ensures forall g :: g != f ==> r.Get(g) == Get(g)
    {
      match f
      case Name => this.(name := value)
      case Email => this.(email := value)
      case Subject => this.(subject := value)
      case Message => this.(message := value)
    }
  }

  /** Two drafts with the same value in every field are the same draft. */
  lemma {:induction false} FieldsDetermineForm(a: FormData, b: FormData)
    requires forall f :: a.Get(f) == b.Get(f)
    ensures a == b
  {
    assert a.Get(Name) == b.Get(Name);
    assert a.Get(Email) == b.Get(Email);
    assert a.Get(Subject) == b.Get(Subject);
    assert a.Get(Message) == b.Get(Message);
  }

  /** Writing a field twice keeps only the second value. */
  lemma SetTwice(d: FormData, f: Field, a: string, b: string)
    ensures d.Set(f, a).Set(f, b) == d.Set(f, b)
  {
    FieldsDetermineForm(d.Set(f, a).Set(f, b), d.Set(f, b));
  }

  /** Writing back a field's own value changes nothing. */
  lemma SetOwnValue(d: FormData, f: Field)
    ensures d.Set(f, d.Get(f)) == d
  {
    FieldsDetermineForm(d.Set(f, d.Get(f)), d);
  }

  /** Writes to two different fields do not interfere. */
  lemma SetCommutes(d: FormData, f: Field, g: Field, a: string, b: string)
    requires f != g
    ensures d.Set(f, a).Set(g, b) == d.Set(g, b).Set(f, a)
  {
    FieldsDetermineForm(d.Set(f, a).Set(g, b), d.Set(g, b).Set(f, a));
  }

  const EmptyForm: FormData := FormData("", "", "", "")

  /** The inputs marked `required`; the subject is optional. */
  const RequiredFields: set<Field> := {Name, Email, Message}

  /** The browser lets the form be submitted only when no required field is empty. */
  predicate Complete(d: FormData)
  {
    forall f :: f in RequiredFields ==> d.Get(f) != ""
  }

  /** The form's state. */
  class ContactForm {
    var formData: FormData
    var isSubmitting: bool

    constructor ()
      ensures formData == EmptyForm && !isSubmitting
    {
      formData := EmptyForm;
      isSubmitting := false;
    }

    /** The change handler of the input named `field`. */
    method HandleChange(field: Field, value: string)
      modifies this
      ensures formData == old(formData).Set(field, value)
      ensures isSubmitting == old(isSubmitting)
    {
      formData := formData.Set(field, value);
    }

    /**
     * The user submits. The submit button is disabled while submitting, and
     * the browser refuses an incomplete form; otherwise the handler marks the
     * form as submitting and leaves the fields alone.
     */
    method BeginSubmit() returns (started: bool)
      modifies this
      ensures started <==> !old(isSubmitting) && Complete(old(formData))
      ensures isSubmitting <==> old(isSubmitting) || started
      ensures formData == old(formData)
    {
      started := !isSubmitting && formData.name != "" && formData.email != "" && formData.message != "";
      if started {
        isSubmitting := true;
      }
    }

    /**
     * The submission delay elapses: the draft is cleared and the form is ready
     * again. The timer exists only once a submission has begun.
     */
    method CompleteSubmit()
      requires isSubmitting
      modifies this
      ensures formData == EmptyForm
      ensures !isSubmitting
    {
      formData := EmptyForm;
      isSubmitting := false;
    }
  }

  /** No second submission starts while one is in flight. */
  method NoSubmitWhileSubmitting(form: ContactForm) returns (started: bool)
    requires form.isSubmitting
    modifies form
    ensures !started
    ensures form.formData == old(form.formData) && form.isSubmitting
  {
    started := form.BeginSubmit();
  }
}
