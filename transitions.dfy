/** The page's handlers as transitions on its state record. Each backend call is
    an input: whether it succeeded, and on load the data it returned. */
module Transitions {
  import opened Records
  import opened AppointmentList
  import opened Rendering

  datatype LoadOutcome =
    | LoadOk(doctor: Doctor, appointments: seq<Appointment>)
    | LoadFailed

  datatype Event =
    | Loaded(outcome: LoadOutcome)                      // the delayed completion of fetchData
    | StatusChange(id: string, newStatus: string, ok: bool)
    | Delete(id: string, ok: bool)
    | EnterEdit(appointment: Appointment)               // the add button
    | EditField(field: Field, value: string)            // an input of the edit form
    | Save(ok: bool)
    | Cancel

  /** The events whose backend call failed. */
  predicate Failed(e: Event) {
    (e.Loaded? && e.outcome.LoadFailed?) || ((e.StatusChange? || e.Delete? || e.Save?) && !e.ok)
  }

  /** The events of the edit workflow. */
  predicate IsEditEvent(e: Event) {
    e.EnterEdit? || e.EditField? || e.Save? || e.Cancel?
  }

  function Step(s: PageState, e: Event): (r: PageState)
    // only the load sets the profile and clears the loading flag
    ensures !e.Loaded? ==> r.doctorDetails == s.doctorDetails && r.isLoading == s.isLoading
    // a failed backend call changes nothing, a failed save included
    ensures Failed(e) ==> r == s
    // the edit workflow never writes to the list, a successful save included
    ensures IsEditEvent(e) ==> r.appointments == s.appointments
    ensures e.Save? ==> r.editData == s.editData
    ensures e.Save? && e.ok ==> !r.editMode
    ensures e.Save? && !e.ok ==> r.editMode == s.editMode
    ensures e.Cancel? ==> !r.editMode && r.editData == s.editData
    ensures e.EnterEdit? ==> r.editMode && r.editData == e.appointment
    ensures e.EditField? ==> r.editMode == s.editMode && r.editData.id == s.editData.id &&
                             FieldValue(r.editData, e.field) == e.value
    // the loading flag and the Loading screen stay in step
    ensures (s.isLoading <==> s.doctorDetails.None?) ==> (r.isLoading <==> r.doctorDetails.None?)
  {
    match e
    case Loaded(LoadOk(d, list)) =>
      s.(doctorDetails := Some(d), appointments := list, isLoading := false)
    case Loaded(LoadFailed) => s
    case StatusChange(id, st, ok) =>
      if ok then s.(appointments := SetStatus(s.appointments, id, st)) else s
    case Delete(id, ok) =>
      if ok then s.(appointments := RemoveById(s.appointments, id)) else s
    case EnterEdit(a) => s.(editData := a, editMode := true)
    case EditField(f, v) => s.(editData := WithField(s.editData, f, v))
    case Save(ok) => if ok then s.(editMode := false) else s
    case Cancel => s.(editMode := false)
  }

  function Run(s: PageState, evs: seq<Event>): PageState
    decreases |evs|
  {
    if evs == [] then s else Run(Step(s, evs[0]), evs[1..])
  }

  /** The events the rendered screen offers: the load completes only while the
      Loading screen is up; the row buttons exist only in a row's detail view
      (and Confirm always sends "successful"); the inputs, Save and Cancel only
      in an edit form. */
  ghost predicate Enabled(s: PageState, e: Event) {
    var v := Render(s);
    match e
    case Loaded(_) => v.Loading?
    case StatusChange(id, st, _) =>
      st == Confirmed && exists a :: OffersDetails(v, a) && a.id == id
    case Delete(id, _) => exists a :: OffersDetails(v, a) && a.id == id
    case EnterEdit(a) => OffersDetails(v, a)
    case EditField(_, _) => ShowsForm(v)
    case Save(_) => ShowsForm(v)
    case Cancel => ShowsForm(v)
  }

  ghost predicate AllEnabled(s: PageState, evs: seq<Event>)
    decreases |evs|
  {
    evs == [] || (Enabled(s, evs[0]) && AllEnabled(Step(s, evs[0]), evs[1..]))
  }

  /** The invariant of every state reached through the screen: the loading flag
      matches the profile, and while editing the page is loaded and the edit
      buffer's id belongs to an entry of the list. */
  predicate Inv(s: PageState) {
    (s.isLoading <==> s.doctorDetails.None?) &&
    (s.editMode ==> s.doctorDetails.Some? &&
                    exists i :: 0 <= i < |s.appointments| && s.appointments[i].id == s.editData.id)
  }

  lemma InitialInv()
    ensures Inv(Initial) && Render(Initial).Loading?
  {
  }

  lemma StepKeepsInv(s: PageState, e: Event)
    requires Inv(s) && Enabled(s, e)
    ensures Inv(Step(s, e))
  {
    var v := Render(s);
    match e
    case Loaded(_) =>
    case StatusChange(id, _, _) =>
      var a :| OffersDetails(v, a) && a.id == id;
      OffersDetailsIff(s, a);
    case Delete(id, _) =>
      var a :| OffersDetails(v, a) && a.id == id;
      OffersDetailsIff(s, a);
    case EnterEdit(a) =>
      OffersDetailsIff(s, a);
      var i :| 0 <= i < |s.appointments| && s.appointments[i] == a;
      assert Step(s, e).appointments[i].id == Step(s, e).editData.id;
    case EditField(_, _) =>
    case Save(_) =>
    case Cancel =>
  }

  /** Every state reached from an invariant state through the screen keeps the invariant. */
  lemma {:induction false} RunKeepsInv(s: PageState, evs: seq<Event>)
    requires Inv(s) && AllEnabled(s, evs)
    ensures Inv(Run(s, evs))
    decreases |evs|
  {
    if evs != [] {
      StepKeepsInv(s, evs[0]);
      RunKeepsInv(Step(s, evs[0]), evs[1..]);
    }
  }

  /** While editing, some row shows the edit form holding the buffer, so in this
      sequential model Save and Cancel stay reachable. A delete still in flight
      when add is pressed on the same row is outside it: that delete can remove
      the row being edited. */
  lemma EditingShowsForm(s: PageState)
    requires Inv(s) && s.editMode
    ensures ShowsForm(Render(s))
    ensures exists i :: 0 <= i < |Render(s).rows| && Render(s).rows[i].form == Some(s.editData)
  {
    var i :| 0 <= i < |s.appointments| && s.appointments[i].id == s.editData.id;
    assert Render(s).rows[i].form == Some(s.editData);
  }

  /** A failed load is final: fetchData runs once per userId, so while the userId
      stays fixed no further load completes, and the profile stays unset and the
      Loading screen stays up whatever else happens. */
  lemma {:induction false} FailedLoadIsFinal(s: PageState, evs: seq<Event>)
    requires s.doctorDetails.None?
    requires forall i :: 0 <= i < |evs| ==> !evs[i].Loaded?
    ensures Run(s, [Loaded(LoadFailed)] + evs).doctorDetails.None?
    ensures Render(Run(s, [Loaded(LoadFailed)] + evs)).Loading?
  {
    assert ([Loaded(LoadFailed)] + evs)[1..] == evs;
    StaysLoading(s, evs);
  }

  lemma {:induction false} StaysLoading(s: PageState, evs: seq<Event>)
    requires s.doctorDetails.None?
    requires forall i :: 0 <= i < |evs| ==> !evs[i].Loaded?
    ensures Run(s, evs).doctorDetails.None?
    decreases |evs|
  {
    if evs != [] {
      StaysLoading(Step(s, evs[0]), evs[1..]);
    }
  }

  /** However long the edit workflow runs (enter, field edits, saves, cancels),
      the list is never written: the saved buffer is never copied into it. */
  lemma {:induction false} EditWorkflowKeepsList(s: PageState, evs: seq<Event>)
    requires forall i :: 0 <= i < |evs| ==> IsEditEvent(evs[i])
    ensures Run(s, evs).appointments == s.appointments
    decreases |evs|
  {
    if evs != [] {
      EditWorkflowKeepsList(Step(s, evs[0]), evs[1..]);
    }
  }

  /** A successful save closes the editor while the list still holds the entry
      as it was before the edit: the row shows the old value. */
  lemma SavedEditNotInList(s: PageState, i: nat, v: string)
    requires i < |s.appointments| && s.appointments[i].appno != v
    ensures var r := Run(s, [EnterEdit(s.appointments[i]), EditField(Appno, v), Save(true)]);
            !r.editMode && r.editData.appno == v && r.editData.id == s.appointments[i].id &&
            r.appointments == s.appointments && r.appointments[i].appno != v
  {
    var evs := [EnterEdit(s.appointments[i]), EditField(Appno, v), Save(true)];
    var s1 := Step(s, evs[0]);
    var s2 := Step(s1, evs[1]);
    var s3 := Step(s2, evs[2]);
    assert evs[1..][1..][1..] == [];
    calc {
      Run(s, evs);
      Run(s1, evs[1..]);
      Run(s2, evs[1..][1..]);
      Run(s3, []);
    }
    EditWorkflowKeepsList(s, evs);
  }

  /** A failed save leaves the editor open with the buffer intact. */
  lemma FailedSaveKeepsEditing(s: PageState)
    requires Inv(s) && s.editMode
    ensures Step(s, Save(false)) == s
    ensures ShowsForm(Render(Step(s, Save(false))))
  {
    EditingShowsForm(s);
  }

  /** Entering edit and cancelling restores the list, the mode and the screen. */
  lemma EnterThenCancelRestores(s: PageState, a: Appointment)
    requires !s.editMode
    ensures var r := Run(s, [EnterEdit(a), Cancel]);
            r.appointments == s.appointments && !r.editMode && Render(r) == Render(s)
  {
    var evs := [EnterEdit(a), Cancel];
    assert evs[1..][1..] == [];
    calc {
      Run(s, evs);
      Run(Step(s, evs[0]), evs[1..]);
      Run(Step(Step(s, evs[0]), evs[1]), []);
      s.(editData := a);
    }
    ViewingIgnoresBuffer(s.appointments, a, s.editData);
  }
}
