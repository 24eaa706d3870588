/** The records the doctor's page holds in its component state: the appointments
    fetched from the backend, the doctor's profile, and the state record itself. */
module Records {

  datatype Option<+T> = None | Some(value: T)

  /** One appointment as the backend returns it. Every field the page reads or
      writes is kept; all are strings, as the edit inputs produce strings. */
  datatype Appointment = Appointment(
    id: string,              // `_id`, assigned by the server
    patientName: string,
    patientContactNo: string,
    patientEmail: string,
    appno: string,
    age: string,
    date: string,
    day: string,             // preferred time of day
    time: string,            // confirmed time
    purpose: string,         // shown in the detail panel
    msg: string,             // edited in the edit form
    status: string)

  /** The doctor's profile; `pic` is the optional base64 image. */
  datatype Doctor = Doctor(id: string, name: string, spec: string, pic: Option<string>)

  /** The initial edit buffer `{}`: no field is set. */
  const Blank: Appointment := Appointment("", "", "", "", "", "", "", "", "", "", "", "")

  /** The four fields the edit form binds to an input. */
  datatype Field = Appno | Date | Time | Msg

  function FieldValue(a: Appointment, f: Field): string {
    match f
    case Appno => a.appno
    case Date => a.date
    case Time => a.time
    case Msg => a.msg
  }

  /** `{ ...a, <f>: v }`: the spread update done by one input's change handler. */
  function WithField(a: Appointment, f: Field, v: string): (r: Appointment)
    ensures FieldValue(r, f) == v
    ensures forall g :: g != f ==> FieldValue(r, g) == FieldValue(a, g)
    ensures r.id == a.id && r.patientName == a.patientName
    ensures r.patientContactNo == a.patientContactNo && r.patientEmail == a.patientEmail
    ensures r.age == a.age && r.day == a.day && r.purpose == a.purpose && r.status == a.status
  {
    match f
    case Appno => a.(appno := v)
    case Date => a.(date := v)
    case Time => a.(time := v)
    case Msg => a.(msg := v)
  }

  /** The component's local state: the five `useState` hooks. */
  datatype PageState = PageState(
    doctorDetails: Option<Doctor>,
    appointments: seq<Appointment>,
    editMode: bool,
    editData: Appointment,
    isLoading: bool)

  /** The state on mount: no profile, no appointments, not editing, loading. */
  const Initial: PageState := PageState(None, [], false, Blank, true)
}
