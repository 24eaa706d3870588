# DoctorPage appointment state, modelled in Dafny

This project models the state handling of the `DoctorPage` view of a medical
appointment web application. The view shows a doctor's profile and the
doctor's appointments. The doctor can confirm, delete and edit an appointment
inline. The model covers the component's five state hooks: `doctorDetails`,
`appointments`, `editMode`, `editData` and `isLoading`. It also covers the
handlers that change them and the guards that decide what the page renders.
Every backend call becomes an input: whether it succeeded and, on load, the
data it returned.

Files:

- `records.dfy` (module `Records`): the appointment and doctor records, the
  spread update of one edit-form field, and the state record `PageState`.
- `appointment_list.dfy` (module `AppointmentList`): the two list
  reconciliations. `SetStatus` is the status `map` and `RemoveById` is the
  delete `filter`. Lemmas cover length, order, "nothing else changes",
  no-match and idempotence.
- `rendering.dfy` (module `Rendering`): the Loading gate and the row guards.
  The detail view shows only when not editing. The edit form shows only in
  rows whose `_id` is the edit buffer's.
- `transitions.dfy` (module `Transitions`): each handler is a transition
  `Step` on `PageState`, and `Run` applies a sequence of them. `Enabled` says
  which events the rendered screen offers. `Inv` is the invariant that every
  enabled run keeps. This file also holds the trace lemmas: a failed load is
  final, the edit workflow never writes to the list, and enter-then-cancel
  restores the screen.
- `page.dfy` (module `Page`): the component as a class `DoctorPage`. Its
  fields are the five hooks. Its methods are the handlers. Each method returns
  the backend request it issues, and each is tied to `Step` by its
  postcondition.

Behaviour stated as the code has it:

- **Save.** `setEditMode(false)` runs only after the awaited PUT succeeds. A
  failed save therefore leaves edit mode on and changes nothing
  (`Transitions.FailedSaveKeepsEditing`).
- **Save and the list.** A successful save never copies the edit buffer
  into `appointments`. After saving, the row still shows the old values
  (`Transitions.SavedEditNotInList`, `Transitions.EditWorkflowKeepsList`).
- **Purpose and message.** The detail view shows `purpose`, but the edit
  form's text area edits `msg`. These are two distinct fields, and the model
  keeps both.
- **Failed load.** A failed load is caught and only logged. The profile stays
  unset, so the Loading screen stays up until the `userId` changes (`Transitions.FailedLoadIsFinal`).

## Model

| member | source | states |
|---|---|---|
| `AppointmentList.SetStatus` | Doctor/DoctorPage.jsx:73-78 | same length; every entry with the id gets the new status and keeps all other fields; every other entry is identical |
| `AppointmentList.SetStatusNoMatch` | Doctor/DoctorPage.jsx:73-78 | when no entry carries the id, the list is unchanged |
| `AppointmentList.SetStatusKeepsIds` | Doctor/DoctorPage.jsx:73-78 | the ids, in order, are the same before and after a status change |
| `AppointmentList.ConfirmScenario` | Doctor/DoctorPage.jsx:227 | confirming the single pending appointment "a1" turns its status to "successful" and changes nothing else |
| `AppointmentList.RemoveById` | Doctor/DoctorPage.jsx:94 | an entry is kept iff it was in the list and its id differs; the length drops by the number of matching entries; the result is an order-preserving subsequence |
| `AppointmentList.RemoveByIdAppend` | Doctor/DoctorPage.jsx:94 | deleting from a concatenation deletes from each part |
| `AppointmentList.RemoveByIdNoMatch` | Doctor/DoctorPage.jsx:94 | when no entry carries the id, the list is unchanged |
| `AppointmentList.RemoveByIdIdempotent` | Doctor/DoctorPage.jsx:94 | deleting the same id twice equals deleting it once |
| `Records.WithField` | Doctor/DoctorPage.jsx:242-261 | a field edit sets the named field (appno, date, time or msg) and leaves `_id`, the other three editable fields and every other field unchanged |
| `Rendering.Rows` | Doctor/DoctorPage.jsx:182-267 | one row per appointment, in list order, with its name and status; details show iff not editing; the edit form shows iff editing and the row's id equals the buffer's id, and it holds the buffer |
| `Rendering.Render` | Doctor/DoctorPage.jsx:112-114 | the Loading screen shows exactly while `doctorDetails` is unset; otherwise the profile and the rows |
| `Rendering.ViewingIgnoresBuffer` | Doctor/DoctorPage.jsx:198-236 | while not editing, the rendered rows do not depend on the edit buffer |
| `Rendering.EditingHidesDetails` | Doctor/DoctorPage.jsx:198 | while editing, no row shows the detail view, so the add, Confirm and delete buttons are not reachable |
| `Rendering.OffersDetailsIff` | Doctor/DoctorPage.jsx:198-232 | a row offers the detail view of an appointment iff the page is loaded, not editing, and the appointment is in the list |
| `Transitions.Step` | Doctor/DoctorPage.jsx:47-265 | a failed call (load, status, delete or save) changes nothing; only the load touches the profile and the loading flag; the edit events never touch the list; save keeps the buffer and ends edit mode only on success; cancel ends edit mode keeping the buffer; entering edit loads the chosen appointment; a field edit keeps the buffer's id |
| `Transitions.InitialInv` | Doctor/DoctorPage.jsx:35-39 | the initial state satisfies the invariant and shows the Loading screen |
| `Transitions.StepKeepsInv` | Doctor/DoctorPage.jsx:198-265 | every event the screen offers keeps the invariant: the loading flag matches the profile, and while editing the page is loaded and the buffer's id is in the list |
| `Transitions.RunKeepsInv` | Doctor/DoctorPage.jsx:198-265 | every sequence of offered events keeps the invariant |
| `Transitions.EditingShowsForm` | Doctor/DoctorPage.jsx:236-265 | in an invariant state with edit mode on, some row shows the edit form holding the buffer; in the sequential model Save and Cancel are therefore reachable |
| `Transitions.FailedLoadIsFinal` | Doctor/DoctorPage.jsx:56-63 | after a failed load, with no later load (the `userId` stays fixed), the profile stays unset and the Loading screen stays up whatever else happens |
| `Transitions.StaysLoading` | Doctor/DoctorPage.jsx:112-114 | no event other than a load sets the profile, over any sequence of events |
| `Transitions.EditWorkflowKeepsList` | Doctor/DoctorPage.jsx:100-109 | any sequence of enter, field-edit, save and cancel events leaves the list unchanged |
| `Transitions.SavedEditNotInList` | Doctor/DoctorPage.jsx:100-109 | enter, edit appno, and a successful save end edit mode with the new appno in the buffer, while the list keeps the old entry |
| `Transitions.FailedSaveKeepsEditing` | Doctor/DoctorPage.jsx:100-109 | a failed save changes no state, and the edit form is still shown |
| `Transitions.EnterThenCancelRestores` | Doctor/DoctorPage.jsx:265 | entering edit and then cancelling restores the list, the mode and the whole rendered screen |
| `Page.DoctorPage.constructor` | Doctor/DoctorPage.jsx:35-39 | initial hooks: no profile, empty list, not editing, empty buffer, loading |
| `Page.DoctorPage.FetchData` | Doctor/DoctorPage.jsx:47-67 | requests profile and appointments for the user id; on success stores both and ends loading; on failure changes nothing |
| `Page.DoctorPage.HandleAppointmentStatusChange` | Doctor/DoctorPage.jsx:69-83 | issues the status PUT; on success the list becomes `SetStatus` of the old list; on failure nothing changes |
| `Page.DoctorPage.HandleDeleteAppointment` | Doctor/DoctorPage.jsx:90-98 | issues the DELETE; on success the list becomes `RemoveById` of the old list; on failure nothing changes |
| `Page.DoctorPage.HandleEditAppointment` | Doctor/DoctorPage.jsx:85-88 | the buffer becomes exactly the chosen appointment and edit mode is on; the list is untouched |
| `Page.DoctorPage.SetField` | Doctor/DoctorPage.jsx:239-262 | only the named field of the buffer changes; the id, the other fields, the mode and the list are unchanged |
| `Page.DoctorPage.HandleSaveEdit` | Doctor/DoctorPage.jsx:100-109 | issues a PUT whose body is the buffer; edit mode ends only on success; the list and the buffer are unchanged |
| `Page.DoctorPage.HandleCancel` | Doctor/DoctorPage.jsx:265 | edit mode ends; the list and the buffer are unchanged |

## Left out

- HTTP calls and backend URLs (Doctor/DoctorPage.jsx:51-52, 71, 92, 103): each call is an input flag plus, on load, the returned data. Request bodies and ids are modelled as `Request` values; URLs are not. Failure logging to the console in every catch (Doctor/DoctorPage.jsx:62, 81, 96, 107) is not modelled.
- `Promise.all` and the 5000 ms `setTimeout` (Doctor/DoctorPage.jsx:50-60): the load completes as one atomic transition.
- Overlapping handlers: the model is sequential, and each handler acts on the current state. Not captured: handlers that each captured `appointments` at render time and overwrite one another's result; and a delete still awaited (Doctor/DoctorPage.jsx:92) when add is pressed on the same row, after which line 94 removes the row being edited, so no row passes the guard at line 236 and, with line 198 hiding every detail view, no add, Confirm, delete, Save or Cancel button is left in any row; the only way out is to leave the page (Logout, Edit Profile). `Transitions.Inv` and `Transitions.EditingShowsForm` hold only of the sequential model.
- Re-running the load when the route's `userId` changes (Doctor/DoctorPage.jsx:67): the model loads once, for one fixed `userId`. `Transitions.Enabled` offers a load only while the Loading screen is up, and `Transitions.FailedLoadIsFinal` assumes no later load, that is, that `userId` stays fixed.
- React/MUI markup, the drawer, the profile image and the accordion expansion state: the view is reduced to the rows' headers and panel contents.
- `handleLogout`/`navigate` and the Edit Profile link (Doctor/DoctorPage.jsx:43-45, 124): external routing.
- The initial `editData` is `{}`, whose fields are all undefined. It is modelled as `Blank`, whose fields are all empty strings. The difference could only show while edit mode is on, and edit mode cannot come on without first loading an appointment into the buffer.
- Field values are strings. JavaScript's distinction between a numeric `appno` from the server and the string typed into the input is not modelled. Backend fields this page never reads are not modelled either.
- A load whose profile body is falsy (e.g. `null`) is not modelled: a successful load always yields a profile.
