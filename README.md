# Teacher student-table and parent-email dialog, modelled in Dafny

This project models the client-side rules of two teacher components in an
education web application:

- the **student management table**: which students it lists for the current
  search text and grade filter, how it shows a parent-invitation status, and its
  UI state (search text, grade filter, selected student, whether the add/edit
  dialog and the email dialog are open) as buttons and dialogs change it;
- the **parent email dialog**: its validation schema, its default form values,
  and its sending state machine (draft, per-field errors, sending flag, error
  banner).

The add, edit, delete and email callbacks are injected, asynchronous and
invisible here. A handler returns the `Request` it makes of a callback. How the
awaited call settled is passed in as an `Outcome`: `Ok`, `ErrWithMessage(m)` for
a rejected `Error`, or `ErrOther` for any other rejection value.

Files:

- `js.dfy` (module `Js`): `Option`, `Outcome`, and the string methods the
  components use: ASCII `toLowerCase`, `includes` (a scan, proved equal to "occurs
  at some index") and single-character `replace`, together with `IndexOf`, the
  first-occurrence search that `replace` runs on a string pattern.
- `parent_email.dfy` (module `ParentEmail`): the schema, the defaults, the
  banner text for a caught error, and class `EmailModal`. It is one mounted dialog
  whose `Submit` runs up to the awaited `onSend` and whose `Settle` runs after it
  settles.
- `student_management.dfy` (module `StudentManagement`): the filter, the status
  indicator and label, the grade toggle, and class `StudentTable`. The table holds
  the mounted `EmailModal`, which exists exactly while a student is selected.
- `scenarios.dfy` (module `TeacherScenarios`): whole interactions with a fresh
  table, proved from the two classes' contracts.

The model follows the code on these points, where its behaviour is easy to
misread:

- After a save, the add/edit dialog closes and the selection clears only when
  the awaited callback succeeds. If it rejects, the setters after the `await` do
  not run.
- Subject and message need at least one character. Nothing is trimmed, so a
  single space passes.
- The banner is cleared only when a submission passes validation. An invalid
  submission leaves an earlier banner in place.
- Dismissing the email dialog does not reset its draft. But the table's close
  handler clears the selection, which unmounts the dialog. Reopening it therefore
  starts from the defaults (`DismissDiscardsDraft`).
- Clicking the same grade twice restores the earlier filter only when that filter
  was off or was that grade. Starting from another grade, it ends with no filter
  (`NextGradeTwice`).
- JavaScript truthiness is kept. A selected grade of `""` filters nothing, and an
  error string of `""` shows no banner.

## Model

| member | source | states |
|---|---|---|
| `Js.ToLower` | src/components/teacher/StudentManagementTable.tsx:46 | lower-casing keeps the length, leaves no upper-case ASCII letter, changes only upper-case letters, and maps each to its lower-case form |
| `Js.ToLowerIdempotent` | src/components/teacher/StudentManagementTable.tsx:46 | lower-casing a lower-cased string changes nothing |
| `Js.IncludesIff` | src/components/teacher/StudentManagementTable.tsx:46 | the `includes` scan succeeds exactly when the needle occurs at some index of the haystack |
| `Js.IndexOf` | src/components/teacher/StudentManagementTable.tsx:186 | the first-occurrence search that `replace` runs on a string pattern gives -1 exactly when the character is absent, otherwise an index holding it with no earlier occurrence |
| `Js.ReplaceFirst` | src/components/teacher/StudentManagementTable.tsx:186 | `replace` with a string pattern keeps the length, changes only the first occurrence of the pattern, and does change that occurrence |
| `StudentManagement.FilterStudents` | src/components/teacher/StudentManagementTable.tsx:45-49 | the listed students are a subsequence of the input in input order; a student is listed iff its lower-cased name contains the lower-cased query and no grade is selected or its grade equals the selection; each visible student keeps all its copies |
| `StudentManagement.FilterIdempotent` | src/components/teacher/StudentManagementTable.tsx:45-49 | filtering the filtered list again gives the same list |
| `StudentManagement.FilterShowsAllByDefault` | src/components/teacher/StudentManagementTable.tsx:45-49 | with an empty query and no grade selected, the whole list is shown |
| `StudentManagement.FilterIgnoresQueryCase` | src/components/teacher/StudentManagementTable.tsx:46 | two queries with the same lower-case form show the same students |
| `StudentManagement.FilterLowerCaseQuery` | src/components/teacher/StudentManagementTable.tsx:46 | typing the query in lower case shows the same students |
| `StudentManagement.GradeFilterNarrows` | src/components/teacher/StudentManagementTable.tsx:47 | selecting a grade shows a subsequence of what the same query shows with no grade selected |
| `StudentManagement.ParentStatusIcon` | src/components/teacher/StudentManagementTable.tsx:51-60 | total: "accepted" gives the check, "pending" the clock, every other string the warning, each in both directions |
| `StudentManagement.StatusLabel` | src/components/teacher/StudentManagementTable.tsx:186 | same length; characters other than `_` are kept; the first `_` becomes a space and every later `_` stays |
| `StudentManagement.ParentEmailShown` | src/components/teacher/StudentManagementTable.tsx:260 | the dialog shows the parent's address whenever there is one (so "" for an empty one), and "" when there is none |
| `StudentManagement.NextGrade` | src/components/teacher/StudentManagementTable.tsx:90 | clicking the active grade clears the filter; clicking any other grade selects that grade |
| `StudentManagement.NextGradeTwice` | src/components/teacher/StudentManagementTable.tsx:90 | clicking a grade twice restores the earlier filter iff it was off or that grade; otherwise the filter ends off |
| `StudentManagement.StudentTable.constructor` | src/components/teacher/StudentManagementTable.tsx:37-41 | empty search, no grade, no selection, both dialogs closed, no email dialog mounted |
| `StudentManagement.StudentTable.Body` | src/components/teacher/StudentManagementTable.tsx:143-156 | a loading row iff loading; a "no students" row iff not loading and no student is visible; otherwise the rows are exactly the filtered list (`FilterStudents`, every copy, input order), which is non-empty |
| `StudentManagement.StudentTable.TypeSearch` | src/components/teacher/StudentManagementTable.tsx:79 | only the search text changes |
| `StudentManagement.StudentTable.ClickGrade` | src/components/teacher/StudentManagementTable.tsx:90 | only the grade filter changes, to `NextGrade` of the old one, and it stays one of the button grades |
| `StudentManagement.StudentTable.Deselect` | src/components/teacher/StudentManagementTable.tsx:251 | clearing the selection unmounts the email dialog |
| `StudentManagement.StudentTable.Select` | src/components/teacher/StudentManagementTable.tsx:251-259 | selecting a student mounts a fresh dialog with that student's defaults, or keeps the mounted one with its state |
| `StudentManagement.StudentTable.ClickAdd` | src/components/teacher/StudentManagementTable.tsx:104-107 | selection cleared (create mode), add/edit dialog open, nothing else changes |
| `StudentManagement.StudentTable.ClickEmailRow` | src/components/teacher/StudentManagementTable.tsx:196-199 | the row's student is selected and the email dialog opens, nothing else changes |
| `StudentManagement.StudentTable.ClickEditRow` | src/components/teacher/StudentManagementTable.tsx:206-209 | the row's student is selected and the add/edit dialog opens, nothing else changes |
| `StudentManagement.StudentTable.ClickDeleteRow` | src/components/teacher/StudentManagementTable.tsx:216 | delete is requested with the row's id and no table state can change |
| `StudentManagement.StudentTable.CloseManagement` | src/components/teacher/StudentManagementTable.tsx:234-237 | the add/edit dialog closes and the selection clears |
| `StudentManagement.StudentTable.SaveStudent` | src/components/teacher/StudentManagementTable.tsx:238-246 | edit with the selected id when a student is selected, add otherwise; only on success do the dialog close and the selection clear; a failure settles the handler with the same outcome and changes nothing |
| `StudentManagement.StudentTable.CloseEmail` | src/components/teacher/StudentManagementTable.tsx:254-257 | the email dialog closes, the selection clears and the dialog unmounts |
| `StudentManagement.StudentTable.HandleEmailSend` | src/components/teacher/StudentManagementTable.tsx:62-66 | with no selection: no request, resolves, nothing changes; otherwise sends with the selected id, closes the email dialog only on success, never changes the selection, and settles as the call did |
| `StudentManagement.StudentTable.EditEmailDraft` | src/components/teacher/ParentEmailModal.tsx:113-163 | typing changes the draft of an open dialog only, and touches neither banner nor field errors |
| `StudentManagement.StudentTable.SubmitEmail` | src/components/teacher/StudentManagementTable.tsx:251-262 | a closed or unmounted dialog sends nothing; an invalid draft sends nothing and shows its field errors; a valid one is sent for the selected student; success closes and unmounts the dialog and clears the selection; failure keeps dialog, draft and selection, shows the caught message and no field errors |
| `StudentManagement.StudentTable.DismissEmail` | src/components/teacher/StudentManagementTable.tsx:254-257 | dismissing an open dialog closes it and clears the selection; otherwise nothing changes |
| `ParentEmail.ValidateEmail` | src/components/teacher/ParentEmailModal.tsx:9-14 | accepts iff subject and message each have length at least 1; the accepted payload keeps them and defaults a missing flag to true; a rejection lists exactly the failing fields' messages |
| `ParentEmail.AcceptedDraftUnchanged` | src/components/teacher/ParentEmailModal.tsx:9-14 | a form draft is accepted iff subject and message are non-empty, and then sent unchanged |
| `ParentEmail.WhitespaceAccepted` | src/components/teacher/ParentEmailModal.tsx:10-11 | a one-space subject and message pass; missing flags become true |
| `ParentEmail.DefaultValues` | src/components/teacher/ParentEmailModal.tsx:38-43 | subject is "Update regarding " + name + "'s progress", message empty, both flags true |
| `ParentEmail.DefaultsNeedMessage` | src/components/teacher/ParentEmailModal.tsx:38-43 | the untouched form is rejected with the message error alone, and any non-empty message makes it acceptable |
| `ParentEmail.CaughtMessage` | src/components/teacher/ParentEmailModal.tsx:54 | a rejected `Error` gives its message; any other value gives "Failed to send email" |
| `ParentEmail.ErrorFor` | src/components/teacher/ParentEmailModal.tsx:119-137 | a field shows an error iff one is recorded for it, and the shown text is the first message recorded for that field |
| `ParentEmail.EmailModal.constructor` | src/components/teacher/ParentEmailModal.tsx:33-44 | a mounted dialog starts with the student's defaults as draft, no errors, not sending |
| `ParentEmail.EmailModal.View` | src/components/teacher/ParentEmailModal.tsx:61-196 | nothing is rendered while closed; the "Sending to" line shows the parent address; each field's error line shows the first recorded message for that field (`ErrorFor`); the submit control is disabled and reads "Sending..." exactly while sending; the banner appears iff the error is a non-empty string, and shows it |
| `ParentEmail.EmailModal.EditDraft` | src/components/teacher/ParentEmailModal.tsx:113-163 | only the draft changes |
| `ParentEmail.EmailModal.Submit` | src/components/teacher/ParentEmailModal.tsx:46-50 | nothing happens while closed or sending; an invalid draft records its field errors, sends nothing and leaves the banner; a valid one is sent, with the sending flag set and the banner cleared before the await |
| `ParentEmail.EmailModal.Settle` | src/components/teacher/ParentEmailModal.tsx:50-57 | sending ends on every outcome; success resets the draft to the mount-time defaults, keeps the banner empty and calls `onClose`; failure sets the caught message, keeps the draft and does not call `onClose` |
| `ParentEmail.EmailModal.Dismiss` | src/components/teacher/ParentEmailModal.tsx:69-172 | backdrop, close icon and Cancel call `onClose` whenever the dialog is on screen and reset nothing |
| `TeacherScenarios.AddThenSave` | src/components/teacher/StudentManagementTable.tsx:104-246 | "Add Student" and then save requests add, never edit |
| `TeacherScenarios.EditThenSave` | src/components/teacher/StudentManagementTable.tsx:206-246 | edit and then save requests edit with the row's id; the dialog stays open iff the call failed |
| `TeacherScenarios.SendSucceeds` | src/components/teacher/ParentEmailModal.tsx:46-58 | a successful send carries the row's id and the typed draft, then leaves the dialog closed and unmounted with no selection |
| `TeacherScenarios.SendFails` | src/components/teacher/ParentEmailModal.tsx:53-57 | a failed send leaves the dialog open with the draft, the error's message or the fallback in the banner, no field-error line, and submit enabled |
| `TeacherScenarios.EmptyMessageNotSent` | src/components/teacher/ParentEmailModal.tsx:78-137 | submitting the untouched form sends nothing, shows "Message is required" under the message, no subject error and no banner |
| `TeacherScenarios.DismissDiscardsDraft` | src/components/teacher/StudentManagementTable.tsx:251-257 | after a dismiss and a reopen for the same student, the dialog shows the defaults again |

## Left out

- Markup, styling, animation and icon components are not modelled. The status indicator is a three-value enum. The CSS `capitalize` on the status label is not modelled.
- The generated avatar URL, the student's own email and the access code are display-only and not modelled. The Download button has no handler.
- `ToLower` models `toLowerCase` for ASCII letters only. Full Unicode case mapping is not modelled.
- React Hook Form's behaviour beyond the schema is not modelled: no re-validation while typing after a failed submit, and no focus handling. Zod's rejection of non-string or non-boolean values cannot arise here, because the form fields are typed.
- Promise scheduling is not modelled. Each table handler settles within one step. `EmailModal` splits the send into `Submit` and `Settle`, but the table runs both in `SubmitEmail`. So no table event happens while a call is pending, and `StudentTable.Valid` asks that no send is in flight between events.
- Handlers read the current state rather than the state of the render that created them. The two differ only when an event happens during a pending call, which is left out above.
- `ClickDeleteRow`: how the delete call settles is not modelled. The handler neither awaits nor catches it, so it cannot change table state.
- `SaveStudent`: a rejected save propagates out of the table's save handler unhandled. The model returns it as `settled` and models no error display for it. (A rejected email send is different: the dialog catches it and shows it in its banner, as `Settle` and `SubmitEmail` state.)
- The add/edit dialog and the student type definition are not part of this model. `Student` keeps only the fields the table reads, and the saved data is an opaque map that is forwarded unchanged.
- The backend effects of the injected callbacks are not modelled.
- After a successful send, the `finally` that clears the sending flag runs in the same continuation as `onClose`, before React re-renders. The re-render then unmounts the dialog and that update is dropped with it. The model clears the flag in `Settle` and then drops the unmounted instance in `CloseEmail`, which ends in the same state.
