/**
 * Whole interactions with a freshly mounted student table, from the first
 * click to what the user sees at the end. Each is proved from the contracts of
 * the table and of the email dialog alone.
 */
module TeacherScenarios {
  import opened Js
  import opened ParentEmail
  import opened StudentManagement

  /** "Add Student" and then saving goes to the add callback, never to edit. */
  method AddThenSave(data: StudentPatch, outcome: Outcome) returns (req: Request)
    ensures req == AddStudent(data)
  {
    var table := new StudentTable();
    table.ClickAdd();
    var settled;
    req, settled := table.SaveStudent(data, outcome);
  }

  /** A row's edit button and then saving goes to the edit callback with that row's id. */
  method EditThenSave(s: Student, data: StudentPatch, outcome: Outcome) returns (req: Request, managementOpen: bool)
    ensures req == EditStudent(s.id, data)
    ensures managementOpen <==> !outcome.Ok?
  {
    var table := new StudentTable();
    table.ClickEditRow(s);
    var settled;
    req, settled := table.SaveStudent(data, outcome);
    managementOpen := table.isManagementModalOpen;
  }

  /**
   * Writing a message and sending it successfully: the request carries the
   * row's id and the default subject with the typed message; afterwards the
   * email dialog is closed and unmounted and no student is selected.
   */
  method SendSucceeds(s: Student, message: string) returns (req: Option<Request>, emailOpen: bool, mounted: bool, selected: bool)
    requires message != ""
    ensures req == Some(SendParentEmail(s.id, DefaultValues(s.name).(message := message)))
    ensures !emailOpen && !mounted && !selected
  {
    var table := new StudentTable();
    table.ClickEmailRow(s);
    table.EditEmailDraft(DefaultValues(s.name).(message := message));
    DefaultsNeedMessage(s.name, message);
    AcceptedDraftUnchanged(DefaultValues(s.name).(message := message));
    req := table.SubmitEmail(Ok);
    emailOpen, mounted, selected := table.isEmailModalOpen, table.emailModal != null, table.selectedStudent.Some?;
  }

  /**
   * A send that fails: the dialog stays open with the typed draft, the banner
   * shows the error's message (or the fallback text), no field shows an error,
   * and the submit control is enabled again for a retry.
   */
  method SendFails(s: Student, message: string, outcome: Outcome) returns (req: Option<Request>, view: Option<DialogView>, draft: EmailFormData)
    requires message != "" && !outcome.Ok?
    ensures req == Some(SendParentEmail(s.id, DefaultValues(s.name).(message := message)))
    ensures view.Some? && !view.value.submitDisabled
    ensures view.value.subjectError == None && view.value.messageError == None
    ensures outcome.ErrWithMessage? && outcome.message != "" ==> view.value.banner == Some(outcome.message)
    ensures outcome.ErrOther? ==> view.value.banner == Some("Failed to send email")
    ensures draft == DefaultValues(s.name).(message := message)
  {
    var table := new StudentTable();
    table.ClickEmailRow(s);
    table.EditEmailDraft(DefaultValues(s.name).(message := message));
    AcceptedDraftUnchanged(DefaultValues(s.name).(message := message));
    req := table.SubmitEmail(outcome);
    view := table.emailModal.View(table.isEmailModalOpen, ParentEmailShown(s));
    draft := table.emailModal.draft;
  }

  /**
   * Submitting the untouched form: nothing is sent, the message field shows its
   * error, the subject field none, and there is no banner.
   */
  method EmptyMessageNotSent(s: Student) returns (req: Option<Request>, view: Option<DialogView>)
    ensures req == None
    ensures view.Some?
    ensures view.value.messageError == Some("Message is required")
    ensures view.value.subjectError == None && view.value.banner == None && !view.value.submitDisabled
  {
    var table := new StudentTable();
    table.ClickEmailRow(s);
    DefaultsNeedMessage(s.name, "");
    req := table.SubmitEmail(Ok);
    view := table.emailModal.View(table.isEmailModalOpen, ParentEmailShown(s));
  }

  /**
   * Dismissing the email dialog and opening it again for the same student: the
   * table's close handler clears the selection, which unmounts the dialog, so
   * the reopened dialog starts from its defaults and the typed draft is gone.
   */
  method DismissDiscardsDraft(s: Student, typed: EmailFormData, control: DismissControl) returns (reopened: EmailFormData)
    ensures reopened == DefaultValues(s.name)
  {
    var table := new StudentTable();
    table.ClickEmailRow(s);
    table.EditEmailDraft(typed);
    table.DismissEmail(control);
    table.ClickEmailRow(s);
    reopened := table.emailModal.draft;
  }
}
