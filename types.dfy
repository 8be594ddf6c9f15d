/** The documents of the `patients` and `doctors` collections
    (src/types/index.ts). Timestamps are integer milliseconds since the
    epoch; a Firestore timestamp that may be missing is an Option. */
module Types {
  import opened Common

  datatype Patient = Patient(
    id: string,
    name: string,
    phone: string,
    doctorId: string,
    timestamp: Option<int>,
    served: bool,
    position: int,
    queueNumber: int,
    patientCode: string,
    dateAdded: string)

  datatype Doctor = Doctor(
    id: string,
    name: string,
    specialty: string,
    acceptingQueues: bool,
    createdAt: Option<int>)

  /** The patients still waiting: the query `where('served', '==', false)`. */
  function Unserved(ps: seq<Patient>): seq<Patient>
  {
    Filter(ps, (p: Patient) => !p.served)
  }
}
