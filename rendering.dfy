/** What the page shows for a given state: the Loading screen while there is no
    profile, otherwise one row per appointment whose expanded panel holds either
    the detail view (with the add, Confirm and delete buttons) or the edit form. */
module Rendering {
  import opened Records

  /** One appointment row: the header (patient name and status) and the content
      of its expanded panel. `details` is the appointment shown in the detail
      view, `form` the edit buffer bound to the edit form's inputs. */
  datatype Row = Row(patientName: string, status: string,
                     details: Option<Appointment>, form: Option<Appointment>)

  datatype Screen = Loading | Dashboard(doctor: Doctor, rows: seq<Row>)

  /** The rows, in the order of the list. The detail view is rendered only when
      not editing; the edit form only when editing and only in the rows whose id
      is the edit buffer's id. */
  function Rows(list: seq<Appointment>, editMode: bool, editData: Appointment): (r: seq<Row>)
    ensures |r| == |list|
    ensures forall i :: 0 <= i < |r| ==>
              r[i].patientName == list[i].patientName && r[i].status == list[i].status
    ensures forall i :: 0 <= i < |r| ==> (r[i].details.Some? <==> !editMode)
    ensures forall i :: 0 <= i < |r| && r[i].details.Some? ==> r[i].details.value == list[i]
    ensures forall i :: 0 <= i < |r| ==>
              (r[i].form.Some? <==> editMode && list[i].id == editData.id)
    ensures forall i :: 0 <= i < |r| && r[i].form.Some? ==> r[i].form.value == editData
  {
    if list == [] then []
    else
      var a := list[0];
      var row := Row(a.patientName, a.status,
                     if !editMode then Some(a) else None,
                     if editMode && a.id == editData.id then Some(editData) else None);
      [row] + Rows(list[1..], editMode, editData)
  }

  /** The whole page: the Loading screen exactly while `doctorDetails` is unset. */
  function Render(s: PageState): (v: Screen)
    ensures v.Loading? <==> s.doctorDetails.None?
    ensures v.Dashboard? ==> v.doctor == s.doctorDetails.value
    ensures v.Dashboard? ==> v.rows == Rows(s.appointments, s.editMode, s.editData)
  {
    match s.doctorDetails
    case None => Loading
    case Some(d) => Dashboard(d, Rows(s.appointments, s.editMode, s.editData))
  }

  /** Some row offers the detail view of `a`, hence its add, Confirm and delete buttons. */
  predicate OffersDetails(v: Screen, a: Appointment) {
    v.Dashboard? && exists i :: 0 <= i < |v.rows| && v.rows[i].details == Some(a)
  }

  /** Some row shows the edit form, hence its inputs and its Save and Cancel buttons. */
  predicate ShowsForm(v: Screen) {
    v.Dashboard? && exists i :: 0 <= i < |v.rows| && v.rows[i].form.Some?
  }

  /** While not editing, the rows do not depend on the edit buffer. */
  lemma {:induction false} ViewingIgnoresBuffer(list: seq<Appointment>, d1: Appointment, d2: Appointment)
    ensures Rows(list, false, d1) == Rows(list, false, d2)
  {
    if list != [] {
      ViewingIgnoresBuffer(list[1..], d1, d2);
    }
  }

  /** While editing, no row offers the detail view, so neither the add, Confirm
      nor delete button is reachable. */
  lemma EditingHidesDetails(s: PageState, a: Appointment)
    requires s.editMode
    ensures !OffersDetails(Render(s), a)
  {
  }

  /** The rows offering details are exactly the appointments of the list, while
      the page is loaded and not editing. */
  lemma OffersDetailsIff(s: PageState, a: Appointment)
    ensures OffersDetails(Render(s), a) <==>
            s.doctorDetails.Some? && !s.editMode && a in s.appointments
  {
    var v := Render(s);
    if s.doctorDetails.Some? && !s.editMode && a in s.appointments {
      var i :| 0 <= i < |s.appointments| && s.appointments[i] == a;
      assert v.rows[i].details == Some(a);
    }
  }
}
