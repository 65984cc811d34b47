/**
 * The parent-email dialog: the form's validation schema and default values,
 * and the dialog's own state (the draft, the per-field errors, the sending
 * flag and the error banner) as it moves through a send.
 */
module ParentEmail {
  import opened Js

  /** The validated payload handed to `onSend`. */
  datatype EmailFormData = EmailFormData(subject: string, message: string, includeProgress: bool, includeActivities: bool)

  /** What the schema is given: the two flags may be missing. */
  datatype EmailFormInput = EmailFormInput(subject: string, message: string, includeProgress: Option<bool>, includeActivities: Option<bool>)

  datatype Field = Subject | Message

  /** A per-field validation message, shown under its input. */
  datatype FieldError = FieldError(field: Field, message: string)

  /** The schema either accepts the input, producing the payload, or lists what is wrong with it. */
  datatype Validation = Accepted(data: EmailFormData) | Rejected(issues: seq<FieldError>)

  const SubjectRequired := FieldError(Subject, "Subject is required")
  const MessageRequired := FieldError(Message, "Message is required")

  /** The banner text used when `onSend` rejects with something that is not an `Error`. */
  const SendFailedFallback := "Failed to send email"

  /** A missing flag takes the schema default, `true`. */
  function FlagOrDefault(flag: Option<bool>): bool {
    flag.None? || flag.value
  }

  /**
   * The email schema: subject and message need at least one character each (a
   * single space passes: nothing is trimmed), and a missing flag becomes `true`.
   */
  function ValidateEmail(input: EmailFormInput): (v: Validation)
    ensures v.Accepted? <==> |input.subject| >= 1 && |input.message| >= 1
    ensures v.Accepted? ==> v.data.subject == input.subject && v.data.message == input.message
    ensures v.Accepted? ==> v.data.includeProgress == (input.includeProgress != Some(false))
    ensures v.Accepted? ==> v.data.includeActivities == (input.includeActivities != Some(false))
    ensures v.Rejected? ==> (SubjectRequired in v.issues <==> |input.subject| == 0)
    ensures v.Rejected? ==> (MessageRequired in v.issues <==> |input.message| == 0)
    ensures v.Rejected? ==> forall e :: e in v.issues ==> e == SubjectRequired || e == MessageRequired
  {
    var issues := (if |input.subject| < 1 then [SubjectRequired] else [])
                + (if |input.message| < 1 then [MessageRequired] else []);
    if issues == [] then
      Accepted(EmailFormData(input.subject, input.message,
                             FlagOrDefault(input.includeProgress), FlagOrDefault(input.includeActivities)))
    else
      Rejected(issues)
  }

  /** The form always holds both flags, so it presents its draft to the schema with both present. */
  function FormInput(d: EmailFormData): EmailFormInput {
    EmailFormInput(d.subject, d.message, Some(d.includeProgress), Some(d.includeActivities))
  }

  /** A draft the schema accepts is sent exactly as it stands. */
  lemma AcceptedDraftUnchanged(d: EmailFormData)
    ensures ValidateEmail(FormInput(d)).Accepted? <==> d.subject != "" && d.message != ""
    ensures ValidateEmail(FormInput(d)).Accepted? ==> ValidateEmail(FormInput(d)).data == d
  {
  }

  /** Whitespace is not trimmed: a one-space subject and message pass the schema. */
  lemma WhitespaceAccepted()
    ensures ValidateEmail(EmailFormInput(" ", " ", None, None)) == Accepted(EmailFormData(" ", " ", true, true))
  {
  }

  /** The form's initial values for a given student. */
  function DefaultValues(studentName: string): (d: EmailFormData)
    ensures |d.subject| == |studentName| + 28
    ensures d.subject[..17] == "Update regarding "
    ensures d.subject[17..|d.subject| - 11] == studentName
    ensures d.subject[|d.subject| - 11..] == "'s progress"
    ensures d.message == "" && d.includeProgress && d.includeActivities
  {
    EmailFormData("Update regarding " + studentName + "'s progress", "", true, true)
  }

  /**
   * The untouched form cannot be sent: its subject always passes, its message is
   * empty, so the schema rejects it with the message error alone.
   */
  lemma DefaultsNeedMessage(studentName: string, message: string)
    ensures ValidateEmail(FormInput(DefaultValues(studentName))) == Rejected([MessageRequired])
    ensures message != "" ==>
      ValidateEmail(FormInput(DefaultValues(studentName).(message := message))).Accepted?
  {
  }

  /** The banner text for a rejected send: the `Error`'s message, or the fixed fallback for any other value. */
  function CaughtMessage(o: Outcome): (m: string)
    requires !o.Ok?
    ensures o.ErrWithMessage? ==> m == o.message
    ensures o.ErrOther? ==> m == SendFailedFallback
  {
    if o.ErrWithMessage? then o.message else SendFailedFallback
  }

  /** How the dismissing controls are reached: the backdrop, the close icon, the Cancel button. */
  datatype DismissControl = Backdrop | CloseIcon | CancelButton

  /** What the open dialog shows of its state. */
  datatype DialogView = DialogView(
    sendingTo: string,
    banner: Option<string>,
    subjectError: Option<string>,
    messageError: Option<string>,
    submitDisabled: bool,
    submitLabel: string)

  /** The first message recorded for a field, if any. */
  function ErrorFor(errors: seq<FieldError>, f: Field): (m: Option<string>)
    ensures m.None? <==> forall e :: e in errors ==> e.field != f
    ensures m.Some? ==> FieldError(f, m.value) in errors
    ensures m.Some? ==> exists i :: 0 <= i < |errors| && errors[i] == FieldError(f, m.value)
                                    && forall j :: 0 <= j < i ==> errors[j].field != f
  {
    if errors == [] then None
    else if errors[0].field == f then Some(errors[0].message)
    else
      var m := ErrorFor(errors[1..], f);
      if m.None? then m
      else
        var i :| 0 <= i < |errors[1..]| && errors[1..][i] == FieldError(f, m.value)
                 && forall j :: 0 <= j < i ==> errors[1..][j].field != f;
        assert errors[i + 1] == FieldError(f, m.value);
        assert forall j :: 0 <= j < i + 1 ==> errors[j].field != f by {
          forall j | 0 <= j < i + 1 ensures errors[j].field != f {
            if j > 0 { assert errors[j] == errors[1..][j - 1]; }
          }
        }
        m
  }

  /**
   * One mounted instance of the dialog. The form values are fixed when it is
   * mounted; the draft, the per-field errors, the sending flag and the banner
   * change as the user works with it. `onSend` and `onClose` are not called
   * here: a method returns what it hands to them and the caller plays them.
   */
  class EmailModal {
    const defaults: EmailFormData
    var draft: EmailFormData
    var fieldErrors: seq<FieldError>
    var isSending: bool
    var error: Option<string>

    /** While a send is in flight there is no banner and no field error left over. */
    ghost predicate Valid()
      reads this
    {
      isSending ==> error == None && fieldErrors == []
    }

    /** The state of a freshly mounted dialog for the given student. */
    ghost predicate Pristine(studentName: string)
      reads this
    {
      && defaults == DefaultValues(studentName)
      && draft == defaults
      && fieldErrors == []
      && !isSending
      && error == None
    }

    constructor (studentName: string)
      ensures Valid() && Pristine(studentName)
    {
      defaults := DefaultValues(studentName);
      draft := DefaultValues(studentName);
      fieldErrors := [];
      isSending := false;
      error := None;
    }

    /**
     * What is on screen: nothing at all while the dialog is closed; otherwise the
     * banner (only for a non-empty error string), the field errors, and a submit
     * control that is disabled and reads "Sending..." exactly while a send is in flight.
     */
    function View(isOpen: bool, parentEmail: string): (v: Option<DialogView>)
      reads this
      ensures v.None? <==> !isOpen
      ensures v.Some? ==> v.value.submitDisabled == isSending
      ensures v.Some? ==> (v.value.submitLabel == "Sending..." <==> isSending)
      ensures v.Some? ==> (v.value.banner.Some? <==> error.Some? && error.value != "")
      ensures v.Some? && v.value.banner.Some? ==> error == v.value.banner
      ensures v.Some? ==> v.value.sendingTo == parentEmail
      ensures v.Some? ==> v.value.subjectError == ErrorFor(fieldErrors, Subject)
      ensures v.Some? ==> v.value.messageError == ErrorFor(fieldErrors, Message)
      ensures v.Some? ==> (v.value.messageError.Some? <==> exists e :: e in fieldErrors && e.field == Message)
      ensures v.Some? ==> (v.value.subjectError.Some? <==> exists e :: e in fieldErrors && e.field == Subject)
    {
      if !isOpen then None
      else
        Some(DialogView(
          parentEmail,
          if error.Some? && error.value != "" then error else None,
          ErrorFor(fieldErrors, Subject),
          ErrorFor(fieldErrors, Message),
          isSending,
          if isSending then "Sending..." else "Send Email"))
    }

    /** The user edits the subject, the message or a checkbox. */
    method EditDraft(d: EmailFormData)
      requires Valid()
      modifies this
      ensures Valid()
      ensures draft == d
      ensures fieldErrors == old(fieldErrors) && isSending == old(isSending) && error == old(error)
    {
      draft := d;
    }

    /**
     * The form is submitted (the submit control or Enter in a field), up to the
     * point where `onSend` is awaited. Nothing happens while the dialog is closed
     * (the form is not on screen) or while a send is in flight (the control is
     * disabled). An invalid draft records its field errors and never reaches
     * `onSend`; a valid one clears the banner, raises the sending flag and is
     * returned as the payload given to `onSend`.
     */
    method Submit(isOpen: bool) returns (sent: Option<EmailFormData>)
      requires Valid()
      modifies this
      ensures Valid()
      ensures draft == old(draft)
      ensures !isOpen || old(isSending) ==>
        sent == None && fieldErrors == old(fieldErrors) && isSending == old(isSending) && error == old(error)
      ensures isOpen && !old(isSending) ==>
        match ValidateEmail(FormInput(old(draft)))
        case Accepted(data) => sent == Some(data) && isSending && error == None && fieldErrors == []
        case Rejected(issues) => sent == None && !isSending && error == old(error) && fieldErrors == issues
    {
      sent := None;
      if !isOpen || isSending {
        return;
      }
      var v := ValidateEmail(FormInput(draft));
      match v
      case Rejected(issues) =>
        fieldErrors := issues;
      case Accepted(data) =>
        fieldErrors := [];
        isSending := true;
        error := None;
        sent := Some(data);
    }

    /**
     * The awaited `onSend` settles. On success the form returns to its mount-time
     * values and `onClose` is called; on failure the banner gets the error's
     * message (or the fallback) and the draft stays for a retry. Either way the
     * sending flag drops.
     */
    method Settle(outcome: Outcome) returns (onCloseCalled: bool)
      requires Valid() && isSending
      modifies this
      ensures Valid() && !isSending
      ensures onCloseCalled <==> outcome.Ok?
      ensures outcome.Ok? ==> draft == defaults && fieldErrors == [] && error == None
      ensures !outcome.Ok? ==>
        draft == old(draft) && fieldErrors == old(fieldErrors) && error == Some(CaughtMessage(outcome))
    {
      onCloseCalled := false;
      if outcome.Ok? {
        draft := defaults;
        fieldErrors := [];
        onCloseCalled := true;
      } else {
        error := Some(CaughtMessage(outcome));
      }
      isSending := false;
    }

    /**
     * The backdrop, the close icon or Cancel is clicked: `onClose` is called,
     * provided the dialog is on screen, and nothing of the draft is reset.
     */
    method Dismiss(isOpen: bool, control: DismissControl) returns (onCloseCalled: bool)
      ensures onCloseCalled == isOpen
    {
      onCloseCalled := isOpen;
    }
  }
}
