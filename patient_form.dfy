/** The patient-facing join form (src/components/PatientForm.tsx): the list
    of doctors a patient may pick, joining a queue, and the "you're in the
    queue" status kept under a saved patient code. The browser's
    localStorage item `patientCode` is the field `savedCode`; the patients
    and doctors snapshots and the outcome of the awaited addPatient call
    are parameters. */
module PatientForm {
  import opened Common
  import opened Types
  import PhoneValidation
  import DoctorQueueCard

  /** The message shown under the phone field when validation fails. */
  const InvalidPhoneMessage: string := "Please enter a valid Philippine phone number (e.g., 09123456789)"

  function IsAccepting(): Doctor -> bool
  {
    (d: Doctor) => d.acceptingQueues
  }

  /** availableDoctors: the doctors that accept queues. */
  function AvailableDoctors(doctors: seq<Doctor>): seq<Doctor>
  {
    Filter(doctors, IsAccepting())
  }

  /** A doctor is offered exactly when it is in the list and accepts queues. */
  lemma AvailableDoctorsExact(doctors: seq<Doctor>, d: Doctor)
    ensures d in AvailableDoctors(doctors) <==> d in doctors && d.acceptingQueues
  {
  }

  /** The offered doctors keep the order of the doctors list: adding a doctor
      at the end adds it at the end of the offer, when it accepts queues. */
  lemma AvailableDoctorsSnoc(doctors: seq<Doctor>, d: Doctor)
    ensures AvailableDoctors(doctors + [d])
         == AvailableDoctors(doctors) + (if d.acceptingQueues then [d] else [])
  {
    FilterAppend(doctors, [d], IsAccepting());
    assert Filter([d], IsAccepting()) == Filter([], IsAccepting()) + (if d.acceptingQueues then [d] else []) by {
      assert [d][..0] == [];
    }
  }

  /** The lookup of the saved code: an unserved patient carrying it. */
  function HasCode(code: string): Patient -> bool
  {
    (p: Patient) => p.patientCode == code && !p.served
  }

  function HasDoctorId(doctorId: string): Doctor -> bool
  {
    (d: Doctor) => d.id == doctorId
  }

  /** The patients still waiting for the doctor, as the form counts them. */
  function IsWaitingFor(doctorId: string): Patient -> bool
  {
    (p: Patient) => p.doctorId == doctorId && !p.served
  }

  /** The position shown right after joining: one behind everybody still
      waiting for the chosen doctor in the snapshot the form holds. */
  function EstimatedPosition(patients: seq<Patient>, doctorId: string): int
  {
    |Filter(patients, IsWaitingFor(doctorId))| + 1
  }

  /** The estimate is the slot right after the last card of the doctor's
      waiting list on the staff board, so it is at least 1 and at most one
      more than the number of patients. */
  lemma EstimatedPositionIsEndOfCard(patients: seq<Patient>, doctorId: string)
    ensures EstimatedPosition(patients, doctorId)
         == |DoctorQueueCard.ActivePatients(patients, doctorId)| + 1
    ensures 1 <= EstimatedPosition(patients, doctorId) <= |patients| + 1
  {
    FilterSame(patients, IsWaitingFor(doctorId), DoctorQueueCard.IsActiveFor(doctorId));
  }

  /** JavaScript truthiness of a possibly missing string. */
  predicate Truthy(s: Option<string>)
  {
    s.Some? && s.value != ""
  }

  datatype FormData = FormData(name: string, phone: string, doctorId: string)

  const EmptyForm: FormData := FormData("", "", "")

  datatype FieldName = NameField | PhoneField | DoctorField

  /** What the form hands to addPatient: the fields, the phone normalised,
      and the chosen doctor's name. */
  datatype Request = Request(name: string, phone: string, doctorId: string, doctorName: string)

  /** How the awaited addPatient call ended: it resolved, with a code or
      with nothing, or it threw. */
  datatype AddResult = Resolved(code: Option<string>) | Rejected

  /** The guard of handleSubmit before any add: every field filled in and
      the phone a valid Philippine number. */
  predicate Submittable(f: FormData)
  {
    f.name != "" && f.phone != "" && f.doctorId != ""
    && PhoneValidation.ValidatePhilippinePhone(f.phone)
  }

  class FormState {
    var formData: FormData
    var loading: bool
    var patientCode: Option<string>
    var queuePosition: Option<int>
    var phoneError: string
    /** The localStorage item `patientCode`. */
    var savedCode: Option<string>

    /** The status view replaces the form exactly when both the code and
        the position are truthy. */
    predicate ShowsStatus()
      reads this
    {
      Truthy(patientCode) && queuePosition.Some? && queuePosition.value != 0
    }

    /** A fresh form over whatever code the browser had saved. */
    constructor(saved: Option<string>)
      ensures formData == EmptyForm && !loading && phoneError == ""
      ensures patientCode.None? && queuePosition.None? && savedCode == saved
      ensures !ShowsStatus()
    {
      formData := EmptyForm;
      loading := false;
      patientCode := None;
      queuePosition := None;
      phoneError := "";
      savedCode := saved;
    }

    /** The effect run on every patients snapshot: a saved code that an
        unserved patient still carries restores the status view with that
        patient's position; a saved code nobody waiting carries is removed. */
    method SavedCodeEffect(patients: seq<Patient>)
      modifies this
      ensures formData == old(formData) && loading == old(loading) && phoneError == old(phoneError)
      ensures !Truthy(old(savedCode)) ==>
        savedCode == old(savedCode) && patientCode == old(patientCode) && queuePosition == old(queuePosition)
      ensures Truthy(old(savedCode)) ==>
        match Find(patients, HasCode(old(savedCode).value))
        case Some(i) =>
          savedCode == old(savedCode) && patientCode == old(savedCode)
          && queuePosition == Some(patients[i].position)
        case None =>
          savedCode.None? && patientCode == old(patientCode) && queuePosition == old(queuePosition)
    {
      if Truthy(savedCode) {
        var found := Find(patients, HasCode(savedCode.value));
        if found.Some? {
          patientCode := savedCode;
          queuePosition := Some(patients[found.value].position);
        } else {
          savedCode := None;
        }
      }
    }

    /** handleSubmit. Nothing is sent while a field is empty or the phone
        is invalid (the latter shows the phone error); nothing is sent when
        no doctor has the chosen id. Otherwise the request carries the
        fields with the phone normalised. When the add resolves with a
        code, the code is shown and saved and the position is the
        estimate for the chosen doctor; when it resolves at all, the form
        is cleared; loading ends in every case past the validation. */
    method HandleSubmit(doctors: seq<Doctor>, patients: seq<Patient>, add: AddResult)
      returns (request: Option<Request>)
      modifies this
      ensures var f := old(formData);
        request.Some? <==> Submittable(f) && Find(doctors, HasDoctorId(f.doctorId)).Some?
      ensures var f := old(formData);
        request.Some? ==>
          var i := Find(doctors, HasDoctorId(f.doctorId)).value;
          i < |doctors| && doctors[i].id == f.doctorId
          && request.value == Request(f.name, PhoneValidation.FormatPhilippinePhone(f.phone), f.doctorId, doctors[i].name)
      ensures var f := old(formData);
        (f.name == "" || f.phone == "" || f.doctorId == "") ==>
          loading == old(loading) && phoneError == old(phoneError)
      ensures var f := old(formData);
        f.name != "" && f.phone != "" && f.doctorId != "" && !Submittable(f) ==>
          loading == old(loading) && phoneError == InvalidPhoneMessage
      ensures Submittable(old(formData)) ==> !loading && phoneError == ""
      ensures request.Some? && add.Resolved? && Truthy(add.code) ==>
        patientCode == add.code && savedCode == add.code
        && queuePosition == Some(EstimatedPosition(patients, old(formData).doctorId))
        && ShowsStatus()
      ensures !(request.Some? && add.Resolved? && Truthy(add.code)) ==>
        patientCode == old(patientCode) && savedCode == old(savedCode) && queuePosition == old(queuePosition)
      ensures formData == (if request.Some? && add.Resolved? then EmptyForm else old(formData))
    {
      request := None;
      var f := formData;
      if f.name == "" || f.phone == "" || f.doctorId == "" {
        return;
      }
      if !PhoneValidation.ValidatePhilippinePhone(f.phone) {
        phoneError := InvalidPhoneMessage;
        return;
      }
      phoneError := "";
      loading := true;
      var selected := Find(doctors, HasDoctorId(f.doctorId));
      if selected.None? {
        loading := false;
        return;
      }
      var doctor := doctors[selected.value];
      request := Some(Request(f.name, PhoneValidation.FormatPhilippinePhone(f.phone), f.doctorId, doctor.name));
      if add.Resolved? {
        if Truthy(add.code) {
          patientCode := add.code;
          savedCode := add.code;
          EstimatedPositionIsEndOfCard(patients, f.doctorId);
          queuePosition := Some(EstimatedPosition(patients, f.doctorId));
        }
        formData := EmptyForm;
      }
      loading := false;
    }

    /** handleInputChange: the named field takes the typed value; editing
        the phone clears its error. */
    method HandleInputChange(field: FieldName, value: string)
      modifies this
      ensures formData == (match field
        case NameField => old(formData).(name := value)
        case PhoneField => old(formData).(phone := value)
        case DoctorField => old(formData).(doctorId := value))
      ensures phoneError == (if field == PhoneField then "" else old(phoneError))
      ensures loading == old(loading) && patientCode == old(patientCode)
      ensures queuePosition == old(queuePosition) && savedCode == old(savedCode)
    {
      match field {
        case NameField => formData := formData.(name := value);
        case PhoneField => formData := formData.(phone := value);
        case DoctorField => formData := formData.(doctorId := value);
      }
      if field == PhoneField {
        phoneError := "";
      }
    }

    /** refreshStatus: while a code is shown, the position follows the
        unserved patient carrying it; when nobody waiting carries it any
        more, code, position and saved code are all cleared and the form
        comes back. */
    method RefreshStatus(patients: seq<Patient>)
      modifies this
      ensures formData == old(formData) && loading == old(loading) && phoneError == old(phoneError)
      ensures !Truthy(old(patientCode)) ==>
        patientCode == old(patientCode) && queuePosition == old(queuePosition) && savedCode == old(savedCode)
      ensures Truthy(old(patientCode)) ==>
        match Find(patients, HasCode(old(patientCode).value))
        case Some(i) =>
          patientCode == old(patientCode) && savedCode == old(savedCode)
          && queuePosition == Some(patients[i].position)
        case None =>
          patientCode.None? && queuePosition.None? && savedCode.None? && !ShowsStatus()
    {
      if Truthy(patientCode) {
        var found := Find(patients, HasCode(patientCode.value));
        if found.Some? {
          queuePosition := Some(patients[found.value].position);
        } else {
          patientCode := None;
          queuePosition := None;
          savedCode := None;
        }
      }
    }

    /** resetForm: forget the code, the position and the saved code, so
        the form is shown again. */
    method ResetForm()
      modifies this
      ensures patientCode.None? && queuePosition.None? && savedCode.None?
      ensures !ShowsStatus()
      ensures formData == old(formData) && loading == old(loading) && phoneError == old(phoneError)
    {
      patientCode := None;
      queuePosition := None;
      savedCode := None;
    }
  }
}
