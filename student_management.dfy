/**
 * The student table: which students it shows for the current search text and
 * grade filter, how a parent-invitation status is displayed, and the table's
 * own UI state (search text, grade filter, selected student, which dialog is
 * open) as its buttons and dialogs change it. The add/edit/delete/email
 * callbacks are not run here: a handler returns the request it makes of them,
 * and takes how the awaited call settled as a parameter.
 */
module StudentManagement {
  import opened Js
  import opened ParentEmail

  type StudentId = string

  /** The part of a student record the table reads. */
  datatype Student = Student(
    id: StudentId,
    name: string,
    grade: string,
    parentEmail: Option<string>,
    parentInviteStatus: string)

  /** The partial record the add/edit dialog hands back; the table forwards it untouched. */
  type StudentPatch = map<string, string>

  /** A call the table makes on one of its callbacks. */
  datatype Request =
    | AddStudent(data: StudentPatch)
    | EditStudent(id: StudentId, data: StudentPatch)
    | DeleteStudent(id: StudentId)
    | SendParentEmail(id: StudentId, email: EmailFormData)

  /** The grade filter buttons, in order. */
  const Grades: seq<string> := ["1st", "2nd", "3rd", "4th", "5th", "6th"]

  // ---------------------------------------------------------------------------
  // Filtering

  /** The grade filter is in force when a grade is selected; like any falsy value, "" means no filter. */
  predicate GradeFilterActive(selectedGrade: Option<string>) {
    selectedGrade.Some? && selectedGrade.value != ""
  }

  /** A student is shown when its name contains the query, ignoring case, and its grade passes the filter. */
  predicate Visible(s: Student, query: string, selectedGrade: Option<string>) {
    && Includes(ToLower(s.name), ToLower(query))
    && (!GradeFilterActive(selectedGrade) || s.grade == selectedGrade.value)
  }

  /** `xs` is `ys` with some elements dropped and the rest kept in their order. */
  predicate IsSubsequence<T(==)>(xs: seq<T>, ys: seq<T>)
    decreases |ys|
  {
    xs == [] || (ys != [] && ((xs[0] == ys[0] && IsSubsequence(xs[1..], ys[1..])) || IsSubsequence(xs, ys[1..])))
  }

  /**
   * The students the table lists: those that are visible, every copy of each,
   * in the order of the input list.
   */
  function FilterStudents(students: seq<Student>, query: string, selectedGrade: Option<string>): (r: seq<Student>)
    ensures IsSubsequence(r, students)
    ensures forall s :: s in r <==> s in students && Visible(s, query, selectedGrade)
    ensures forall s :: multiset(r)[s] == if Visible(s, query, selectedGrade) then multiset(students)[s] else 0
  {
    if students == [] then []
    else
      var rest := FilterStudents(students[1..], query, selectedGrade);
      assert students == [students[0]] + students[1..];
      if Visible(students[0], query, selectedGrade) then [students[0]] + rest else rest
  }

  /** Filtering the shown list again changes nothing. */
  lemma {:induction false} FilterIdempotent(students: seq<Student>, query: string, selectedGrade: Option<string>)
    ensures FilterStudents(FilterStudents(students, query, selectedGrade), query, selectedGrade)
         == FilterStudents(students, query, selectedGrade)
  {
    if students != [] {
      FilterIdempotent(students[1..], query, selectedGrade);
    }
  }

  /** With no search text and no grade selected, the whole list is shown. */
  lemma {:induction false} FilterShowsAllByDefault(students: seq<Student>)
    ensures FilterStudents(students, "", None) == students
  {
    if students != [] {
      IncludesEmpty(ToLower(students[0].name));
      FilterShowsAllByDefault(students[1..]);
    }
  }

  /** The search ignores case: two queries with the same lower-case form show the same students. */
  lemma {:induction false} FilterIgnoresQueryCase(students: seq<Student>, q1: string, q2: string, selectedGrade: Option<string>)
    requires ToLower(q1) == ToLower(q2)
    ensures FilterStudents(students, q1, selectedGrade) == FilterStudents(students, q2, selectedGrade)
  {
    if students != [] {
      FilterIgnoresQueryCase(students[1..], q1, q2, selectedGrade);
    }
  }

  /** In particular, typing the query in lower case shows the same students. */
  lemma FilterLowerCaseQuery(students: seq<Student>, query: string, selectedGrade: Option<string>)
    ensures FilterStudents(students, ToLower(query), selectedGrade) == FilterStudents(students, query, selectedGrade)
  {
    ToLowerIdempotent(query);
    FilterIgnoresQueryCase(students, ToLower(query), query, selectedGrade);
  }

  /** Selecting a grade only narrows the list shown for the same search text. */
  lemma {:induction false} GradeFilterNarrows(students: seq<Student>, query: string, grade: string)
    ensures IsSubsequence(FilterStudents(students, query, Some(grade)), FilterStudents(students, query, None))
  {
    if students != [] {
      GradeFilterNarrows(students[1..], query, grade);
      var rest := FilterStudents(students[1..], query, None);
      var narrowed := FilterStudents(students[1..], query, Some(grade));
      if Visible(students[0], query, None) && !Visible(students[0], query, Some(grade)) {
        SubsequenceOfLonger(narrowed, rest, students[0]);
      }
    }
  }

  lemma {:induction false} SubsequenceOfLonger<T>(xs: seq<T>, ys: seq<T>, y: T)
    requires IsSubsequence(xs, ys)
    ensures IsSubsequence(xs, [y] + ys)
  {
    assert ([y] + ys)[1..] == ys;
  }

  // ---------------------------------------------------------------------------
  // Display of one row

  /** The indicator shown next to a parent-invitation status. */
  datatype StatusIcon = CheckCircle | Clock | AlertCircle

  /** Every status string has an indicator: a check for "accepted", a clock for "pending", a warning for anything else. */
  function ParentStatusIcon(status: string): (icon: StatusIcon)
    ensures icon == CheckCircle <==> status == "accepted"
    ensures icon == Clock <==> status == "pending"
    ensures icon == AlertCircle <==> status != "accepted" && status != "pending"
  {
    match status
    case "accepted" => CheckCircle
    case "pending" => Clock
    case _ => AlertCircle
  }

  /** The status text shown in a row: the first `_` becomes a space, later ones stay. */
  function StatusLabel(status: string): (shown: string)
    ensures |shown| == |status|
    ensures forall j :: 0 <= j < |status| && status[j] != '_' ==> shown[j] == status[j]
    ensures forall j :: 0 <= j < |status| && status[j] == '_' ==> (shown[j] == ' ' <==> '_' !in status[..j])
    ensures forall j :: 0 <= j < |status| && status[j] == '_' ==> (shown[j] == '_' <==> '_' in status[..j])
  {
    ReplaceFirst(status, '_', ' ')
  }

  /** The address shown in the email dialog: the parent's (an empty one stays empty), or "" when there is none. */
  function ParentEmailShown(s: Student): (address: string)
    ensures s.parentEmail.Some? ==> address == s.parentEmail.value
    ensures s.parentEmail.None? ==> address == ""
  {
    if s.parentEmail.Some? then s.parentEmail.value else ""
  }

  // ---------------------------------------------------------------------------
  // UI state

  /** Clicking grade button `clicked`: the active grade switches the filter off, any other grade becomes the filter. */
  function NextGrade(current: Option<string>, clicked: string): (r: Option<string>)
    ensures r.None? <==> current == Some(clicked)
    ensures r.Some? ==> r == Some(clicked)
  {
    if current == Some(clicked) then None else Some(clicked)
  }

  /**
   * Clicking the same grade twice restores the previous filter exactly when that
   * filter was off or was that grade; from another grade it ends with the filter off.
   */
  lemma NextGradeTwice(current: Option<string>, clicked: string)
    ensures NextGrade(NextGrade(current, clicked), clicked) == current <==> current == None || current == Some(clicked)
    ensures current != None && current != Some(clicked) ==> NextGrade(NextGrade(current, clicked), clicked) == None
  {
  }

  /** What the table body shows. */
  datatype TableBody = Loading | NoStudents | Rows(rows: seq<Student>)

  /** The five state variables of the table, as one value. */
  datatype TableUi = TableUi(
    searchQuery: string,
    selectedGrade: Option<string>,
    selectedStudent: Option<Student>,
    managementOpen: bool,
    emailOpen: bool)

  class StudentTable {
    var searchQuery: string
    var selectedGrade: Option<string>
    var selectedStudent: Option<Student>
    var isManagementModalOpen: bool
    var isEmailModalOpen: bool
    /** The email dialog's instance; it is mounted exactly while a student is selected. */
    var emailModal: EmailModal?

    /**
     * The email dialog exists exactly while a student is selected, the grade
     * filter is one of the buttons' grades, and between events no send is in flight.
     */
    ghost predicate Valid()
      reads this, emailModal
    {
      && (emailModal != null <==> selectedStudent.Some?)
      && (selectedGrade.Some? ==> selectedGrade.value in Grades)
      && (emailModal != null ==> emailModal.Valid() && !emailModal.isSending)
    }

    function Ui(): TableUi
      reads this
    {
      TableUi(searchQuery, selectedGrade, selectedStudent, isManagementModalOpen, isEmailModalOpen)
    }

    constructor ()
      ensures Valid()
      ensures Ui() == TableUi("", None, None, false, false) && emailModal == null
    {
      searchQuery := "";
      selectedGrade := None;
      selectedStudent := None;
      isManagementModalOpen := false;
      isEmailModalOpen := false;
      emailModal := null;
    }

    /**
     * The table body for the given student list: a loading row while loading,
     * a "no students" row when nothing is visible, otherwise the visible students.
     */
    function Body(students: seq<Student>, isLoading: bool): (b: TableBody)
      reads this
      ensures b.Loading? <==> isLoading
      ensures b.NoStudents? <==> !isLoading && forall s :: s in students ==> !Visible(s, searchQuery, selectedGrade)
      ensures b.Rows? ==> b.rows != [] && IsSubsequence(b.rows, students)
      ensures b.Rows? ==> forall s :: s in b.rows <==> s in students && Visible(s, searchQuery, selectedGrade)
      ensures b.Rows? ==> b.rows == FilterStudents(students, searchQuery, selectedGrade)
    {
      if isLoading then Loading
      else
        var shown := FilterStudents(students, searchQuery, selectedGrade);
        if |shown| == 0 then NoStudents else Rows(shown)
    }

    /** Typing in the search box. */
    method TypeSearch(query: string)
      requires Valid()
      modifies this
      ensures Valid()
      ensures Ui() == old(Ui()).(searchQuery := query) && emailModal == old(emailModal)
    {
      searchQuery := query;
    }

    /** Clicking one of the grade buttons. */
    method ClickGrade(grade: string)
      requires Valid() && grade in Grades
      modifies this
      ensures Valid()
      ensures Ui() == old(Ui()).(selectedGrade := NextGrade(old(selectedGrade), grade)) && emailModal == old(emailModal)
    {
      selectedGrade := NextGrade(selectedGrade, grade);
    }

    /** Clearing the selection unmounts the email dialog, and its state with it. */
    method Deselect()
      requires selectedGrade.Some? ==> selectedGrade.value in Grades
      modifies this
      ensures Valid()
      ensures Ui() == old(Ui()).(selectedStudent := None) && emailModal == null
    {
      selectedStudent := None;
      emailModal := null;
    }

    /** Selecting a student mounts the email dialog for it, unless one is mounted already, which then keeps its state. */
    method Select(s: Student)
      requires Valid()
      modifies this
      ensures Valid()
      ensures Ui() == old(Ui()).(selectedStudent := Some(s))
      ensures old(emailModal) != null ==> emailModal == old(emailModal)
      ensures old(emailModal) == null ==> fresh(emailModal) && emailModal.Pristine(s.name)
    {
      selectedStudent := Some(s);
      if emailModal == null {
        emailModal := new EmailModal(s.name);
      }
    }

    /** "Add Student": no selection (create mode), and the add/edit dialog opens. */
    method ClickAdd()
      requires Valid()
      modifies this
      ensures Valid()
      ensures Ui() == old(Ui()).(selectedStudent := None, managementOpen := true) && emailModal == null
    {
      Deselect();
      isManagementModalOpen := true;
    }

    /** A row's email button: that row's student is selected and the email dialog opens. */
    method ClickEmailRow(s: Student)
      requires Valid()
      modifies this
      ensures Valid()
      ensures Ui() == old(Ui()).(selectedStudent := Some(s), emailOpen := true)
      ensures old(emailModal) != null ==> emailModal == old(emailModal)
      ensures old(emailModal) == null ==> fresh(emailModal) && emailModal.Pristine(s.name)
    {
      Select(s);
      isEmailModalOpen := true;
    }

    /** A row's edit button: that row's student is selected and the add/edit dialog opens. */
    method ClickEditRow(s: Student)
      requires Valid()
      modifies this
      ensures Valid()
      ensures Ui() == old(Ui()).(selectedStudent := Some(s), managementOpen := true)
      ensures old(emailModal) != null ==> emailModal == old(emailModal)
      ensures old(emailModal) == null ==> fresh(emailModal) && emailModal.Pristine(s.name)
    {
      Select(s);
      isManagementModalOpen := true;
    }

    /** A row's delete button: the delete callback gets the row's id, at once; no table state changes. */
    method ClickDeleteRow(s: Student) returns (req: Request)
      ensures req == DeleteStudent(s.id)
    {
      req := DeleteStudent(s.id);
    }

    /** The add/edit dialog's close handler: it closes and the selection is cleared. */
    method CloseManagement()
      requires Valid()
      modifies this
      ensures Valid()
      ensures Ui() == old(Ui()).(managementOpen := false, selectedStudent := None) && emailModal == null
    {
      isManagementModalOpen := false;
      Deselect();
    }

    /**
     * The add/edit dialog's save handler: with a student selected it edits that
     * student, otherwise it adds one. Only if the awaited call succeeds does the
     * dialog close and the selection clear; if it fails the handler rejects with
     * the same error and nothing else happens.
     */
    method SaveStudent(data: StudentPatch, outcome: Outcome) returns (req: Request, settled: Outcome)
      requires Valid()
      modifies this
      ensures Valid()
      ensures req == if old(selectedStudent).Some? then EditStudent(old(selectedStudent).value.id, data) else AddStudent(data)
      ensures settled == outcome
      ensures outcome.Ok? ==>
        Ui() == old(Ui()).(managementOpen := false, selectedStudent := None) && emailModal == null
      ensures !outcome.Ok? ==> Ui() == old(Ui()) && emailModal == old(emailModal)
    {
      if selectedStudent.Some? {
        req := EditStudent(selectedStudent.value.id, data);
      } else {
        req := AddStudent(data);
      }
      settled := outcome;
      if outcome.Ok? {
        isManagementModalOpen := false;
        Deselect();
      }
    }

    /** The email dialog's close handler: it closes and the selection is cleared, which unmounts it. */
    method CloseEmail()
      requires Valid()
      modifies this
      ensures Valid()
      ensures Ui() == old(Ui()).(emailOpen := false, selectedStudent := None) && emailModal == null
    {
      isEmailModalOpen := false;
      Deselect();
    }

    /**
     * The `onSend` handed to the email dialog. Without a selected student it does
     * nothing and resolves. Otherwise it sends for the selected student and, only
     * if that succeeds, closes the email dialog, keeping the selection; a failure
     * is passed on to the dialog unchanged.
     */
    method HandleEmailSend(data: EmailFormData, outcome: Outcome) returns (req: Option<Request>, settled: Outcome)
      modifies this
      ensures old(selectedStudent).None? ==> req == None && settled == Ok && Ui() == old(Ui())
      ensures old(selectedStudent).Some? ==>
        req == Some(SendParentEmail(old(selectedStudent).value.id, data)) && settled == outcome
      ensures Ui() == old(Ui()).(emailOpen := old(isEmailModalOpen) && !(old(selectedStudent).Some? && outcome.Ok?))
      ensures emailModal == old(emailModal)
    {
      if selectedStudent.None? {
        return None, Ok;
      }
      req := Some(SendParentEmail(selectedStudent.value.id, data));
      settled := outcome;
      if outcome.Ok? {
        isEmailModalOpen := false;
      }
    }

    /** The user edits the email draft; only an open dialog has a form to type into. */
    method EditEmailDraft(d: EmailFormData)
      requires Valid()
      modifies emailModal
      ensures Valid()
      ensures emailModal != null && isEmailModalOpen ==> emailModal.draft == d
      ensures emailModal != null && !isEmailModalOpen ==> emailModal.draft == old(emailModal.draft)
      ensures emailModal != null ==>
        emailModal.error == old(emailModal.error) && emailModal.fieldErrors == old(emailModal.fieldErrors)
    {
      if emailModal != null && isEmailModalOpen {
        emailModal.EditDraft(d);
      }
    }

    /**
     * The email dialog's form is submitted and the send it starts runs to its end:
     * the dialog validates its draft, hands a valid one to `HandleEmailSend`, and
     * settles with what that handler settled with; when the dialog then calls
     * `onClose`, the table closes it and clears the selection.
     */
    method SubmitEmail(outcome: Outcome) returns (req: Option<Request>)
      requires Valid()
      modifies this, emailModal
      ensures Valid()
      ensures old(emailModal) == null || !old(isEmailModalOpen) ==>
        req == None && Ui() == old(Ui()) && emailModal == old(emailModal)
      ensures old(emailModal) != null && !old(isEmailModalOpen) ==>
        && emailModal.draft == old(emailModal.draft) && emailModal.fieldErrors == old(emailModal.fieldErrors)
        && emailModal.error == old(emailModal.error)
      ensures old(emailModal) != null && old(isEmailModalOpen) ==>
        match ValidateEmail(FormInput(old(emailModal.draft)))
        case Rejected(issues) =>
          && req == None && Ui() == old(Ui()) && emailModal == old(emailModal)
          && emailModal.fieldErrors == issues && emailModal.draft == old(emailModal.draft)
          && emailModal.error == old(emailModal.error)
        case Accepted(data) =>
          && req == Some(SendParentEmail(old(selectedStudent).value.id, data))
          && (outcome.Ok? ==>
                Ui() == old(Ui()).(emailOpen := false, selectedStudent := None) && emailModal == null)
          && (!outcome.Ok? ==>
                && Ui() == old(Ui()) && emailModal == old(emailModal)
                && emailModal.error == Some(CaughtMessage(outcome))
                && emailModal.draft == old(emailModal.draft) && emailModal.fieldErrors == [])
    {
      req := None;
      if emailModal == null {
        return;
      }
      var modal := emailModal;
      var sent := modal.Submit(isEmailModalOpen);
      if sent.None? {
        return;
      }
      var settled;
      req, settled := HandleEmailSend(sent.value, outcome);
      var onCloseCalled := modal.Settle(settled);
      if onCloseCalled {
        CloseEmail();
      }
    }

    /** The email dialog's backdrop, close icon or Cancel: the table closes it and clears the selection. */
    method DismissEmail(control: DismissControl)
      requires Valid()
      modifies this
      ensures Valid()
      ensures old(emailModal) != null && old(isEmailModalOpen) ==>
        Ui() == old(Ui()).(emailOpen := false, selectedStudent := None) && emailModal == null
      ensures old(emailModal) == null || !old(isEmailModalOpen) ==> Ui() == old(Ui()) && emailModal == old(emailModal)
    {
      if emailModal != null {
        var onCloseCalled := emailModal.Dismiss(isEmailModalOpen, control);
        if onCloseCalled {
          CloseEmail();
        }
      }
    }
  }
}
