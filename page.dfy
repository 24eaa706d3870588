/** The DoctorPage component: its five state hooks as fields, its handlers as
    methods. Each handler reports the backend request it issues and takes as an
    input whether that request succeeded. */
module Page {
  import opened Records
  import opened AppointmentList
  import opened Transitions

  datatype Request =
    | GetDoctor(doctorId: string)
    | GetAppointments(doctorId: string)
    | PutStatus(appointmentId: string, status: string)
    | PutAppointment(appointmentId: string, body: Appointment)
    | DeleteAppointment(appointmentId: string)

  class DoctorPage {
    const userId: string
    var doctorDetails: Option<Doctor>
    var appointments: seq<Appointment>
    var editMode: bool
    var editData: Appointment
    var isLoading: bool

    function State(): PageState
      reads this
    {
      PageState(doctorDetails, appointments, editMode, editData, isLoading)
    }

    /** The loading flag is set exactly while there is no profile. The handlers
        below are not guarded by what the screen offers, so the edit-mode half
        of the page's invariant is not kept here: it lives in `Transitions.Inv`,
        which holds over the events `Transitions.Enabled` allows. */
    ghost predicate Valid()
      reads this
    {
      isLoading <==> doctorDetails.None?
    }

    constructor (userId: string)
      ensures Valid() && State() == Initial && this.userId == userId
    {
      this.userId := userId;
      doctorDetails := None;
      appointments := [];
      editMode := false;
      editData := Blank;
      isLoading := true;
    }

    /** The effect of fetchData: both profile and appointments are requested; on
        success both are stored and loading ends; on failure nothing changes. */
    method FetchData(outcome: LoadOutcome) returns (requests: seq<Request>)
      requires Valid()
      modifies this
      ensures Valid()
      ensures requests == [GetDoctor(userId), GetAppointments(userId)]
      ensures outcome.LoadOk? ==>
                doctorDetails == Some(outcome.doctor) &&
                appointments == outcome.appointments && !isLoading
      ensures outcome.LoadFailed? ==>
                doctorDetails == old(doctorDetails) && appointments == old(appointments) &&
                isLoading == old(isLoading)
      ensures editMode == old(editMode) && editData == old(editData)
      ensures State() == Step(old(State()), Loaded(outcome))
    {
      requests := [GetDoctor(userId), GetAppointments(userId)];
      match outcome
      case LoadOk(d, list) =>
        doctorDetails := Some(d);
        appointments := list;
        isLoading := false;
      case LoadFailed =>
    }

    method HandleAppointmentStatusChange(appointmentId: string, newStatus: string, ok: bool)
      returns (request: Request)
      requires Valid()
      modifies this
      ensures Valid()
      ensures request == PutStatus(appointmentId, newStatus)
      ensures appointments == if ok then SetStatus(old(appointments), appointmentId, newStatus)
                              else old(appointments)
      ensures doctorDetails == old(doctorDetails) && isLoading == old(isLoading)
      ensures editMode == old(editMode) && editData == old(editData)
      ensures State() == Step(old(State()), StatusChange(appointmentId, newStatus, ok))
    {
      request := PutStatus(appointmentId, newStatus);
      if ok {
        appointments := SetStatus(appointments, appointmentId, newStatus);
      }
    }

    method HandleDeleteAppointment(appointmentId: string, ok: bool) returns (request: Request)
      requires Valid()
      modifies this
      ensures Valid()
      ensures request == DeleteAppointment(appointmentId)
      ensures appointments == if ok then RemoveById(old(appointments), appointmentId)
                              else old(appointments)
      ensures doctorDetails == old(doctorDetails) && isLoading == old(isLoading)
      ensures editMode == old(editMode) && editData == old(editData)
      ensures State() == Step(old(State()), Delete(appointmentId, ok))
    {
      request := DeleteAppointment(appointmentId);
      if ok {
        appointments := RemoveById(appointments, appointmentId);
      }
    }

    /** The add button: the chosen appointment becomes the edit buffer. */
    method HandleEditAppointment(appointment: Appointment)
      requires Valid()
      modifies this
      ensures Valid()
      ensures editData == appointment && editMode
      ensures appointments == old(appointments)
      ensures doctorDetails == old(doctorDetails) && isLoading == old(isLoading)
      ensures State() == Step(old(State()), EnterEdit(appointment))
    {
      editData := appointment;
      editMode := true;
    }

    /** The onChange handler of one input of the edit form. */
    method SetField(field: Field, value: string)
      requires Valid()
      modifies this
      ensures Valid()
      ensures FieldValue(editData, field) == value
      ensures forall g :: g != field ==> FieldValue(editData, g) == FieldValue(old(editData), g)
      ensures editData.id == old(editData.id) && editData.status == old(editData.status)
      ensures editData == WithField(old(editData), field, value)
      ensures appointments == old(appointments) && editMode == old(editMode)
      ensures doctorDetails == old(doctorDetails) && isLoading == old(isLoading)
      ensures State() == Step(old(State()), EditField(field, value))
    {
      editData := WithField(editData, field, value);
    }

    /** Save: the buffer is sent; edit mode ends only once the request succeeded,
        and the list is not touched either way. */
    method HandleSaveEdit(ok: bool) returns (request: Request)
      requires Valid()
      modifies this
      ensures Valid()
      ensures request == PutAppointment(old(editData).id, old(editData))
      ensures editMode == (old(editMode) && !ok)
      ensures appointments == old(appointments) && editData == old(editData)
      ensures doctorDetails == old(doctorDetails) && isLoading == old(isLoading)
      ensures State() == Step(old(State()), Save(ok))
    {
      request := PutAppointment(editData.id, editData);
      if ok {
        editMode := false;
      }
    }

    /** Cancel: leaves edit mode, keeping the buffer and the list. */
    method HandleCancel()
      requires Valid()
      modifies this
      ensures Valid()
      ensures !editMode
      ensures appointments == old(appointments) && editData == old(editData)
      ensures doctorDetails == old(doctorDetails) && isLoading == old(isLoading)
      ensures State() == Step(old(State()), Cancel)
    {
      editMode := false;
    }
  }
}
