/** The daily reset (src/hooks/useDailyReset.ts): archive the unserved
    patients as canceled visits, delete every patient, close every doctor's
    queue, then record the day of the reset. A check runs the reset only
    when the recorded day is not today; a manual reset runs it regardless.

    The `patients` and `doctors` collections and the last-reset marker are
    fields; the analytics collections are an AnalyticsStore. Each read and
    each batch commit may fail, as the flags in Faults say; an analytics
    write may fail per patient, and that failure is swallowed. */
module DailyReset {
  import opened Common
  import opened Types
  import opened AnalyticsHook

  /** The steps of performDailyReset, in the order they run. */
  datatype Step = Archive | Clear | CloseDoctors

  /** How a reset attempt ended: completed, stopped by the step that threw,
      or not run because today's reset is already recorded. */
  datatype ResetResult = Done | Failed(step: Step) | NotNeeded

  /** Which Firestore calls succeed during one reset. storeOk(k) says
      whether the analytics write for the k-th patient document succeeds. */
  datatype Faults = Faults(
    archiveReadOk: bool,
    storeOk: nat -> bool,
    clearReadOk: bool,
    clearCommitOk: bool,
    doctorsReadOk: bool,
    doctorsCommitOk: bool)

  /** The canceled event archived for a patient: keyed by doctor and by the
      day of the join time, which falls back to the current time. */
  function ArchiveEvent(p: Patient, dateKey: int -> string, now: int): StoredEvent
  {
    var joinedAt := if p.timestamp.Some? then p.timestamp.value else now;
    StoredEvent(p.doctorId, dateKey(joinedAt), MakeRecord(p.doctorId, p.name, joinedAt, Canceled, None), now)
  }

  /** The events archiving stores for the patient documents ps: one per
      unserved patient whose write succeeds, in document order. Each is a
      canceled visit without a served time, stamped with the reset time. */
  function ArchivedEvents(ps: seq<Patient>, dateKey: int -> string, now: int, storeOk: nat -> bool): (r: seq<StoredEvent>)
    ensures forall m :: 0 <= m < |r| ==>
      r[m].record.status == Canceled && r[m].record.servedAt.None? && r[m].timestamp == now
  {
    if ps == [] then []
    else
      var p := ps[|ps| - 1];
      ArchivedEvents(ps[..|ps| - 1], dateKey, now, storeOk)
        + (if !p.served && storeOk(|ps| - 1) then [ArchiveEvent(p, dateKey, now)] else [])
  }

  /** Archiving stores at most one event per unserved patient. */
  lemma {:induction false} ArchivedAtMostUnserved(ps: seq<Patient>, dateKey: int -> string, now: int, storeOk: nat -> bool)
    ensures |ArchivedEvents(ps, dateKey, now, storeOk)| <= |Unserved(ps)|
  {
    if ps != [] {
      ArchivedAtMostUnserved(ps[..|ps| - 1], dateKey, now, storeOk);
    }
  }

  /** When every analytics write succeeds, archiving stores exactly one
      canceled event per unserved patient, in document order, naming that
      patient and doctor, and none for a served patient. */
  lemma {:induction false} ArchiveOnePerUnserved(ps: seq<Patient>, dateKey: int -> string, now: int, storeOk: nat -> bool)
    requires forall k :: 0 <= k < |ps| ==> storeOk(k)
    ensures |ArchivedEvents(ps, dateKey, now, storeOk)| == |Unserved(ps)|
    ensures forall k :: 0 <= k < |Unserved(ps)| ==>
      ArchivedEvents(ps, dateKey, now, storeOk)[k] == ArchiveEvent(Unserved(ps)[k], dateKey, now)
    ensures forall k :: 0 <= k < |Unserved(ps)| ==>
      var e := ArchivedEvents(ps, dateKey, now, storeOk)[k];
      e.record.status == Canceled && e.record.patientName == Unserved(ps)[k].name &&
      e.doctorId == Unserved(ps)[k].doctorId && e.record.doctorId == Unserved(ps)[k].doctorId
  {
    if ps != [] {
      ArchiveOnePerUnserved(ps[..|ps| - 1], dateKey, now, storeOk);
    }
  }

  /** One more patient document adds its event, when stored, after those
      of the documents before it. */
  lemma ArchivedEventsSnoc(ps: seq<Patient>, k: nat, dateKey: int -> string, now: int, storeOk: nat -> bool)
    requires k < |ps|
    ensures ArchivedEvents(ps[..k + 1], dateKey, now, storeOk)
         == ArchivedEvents(ps[..k], dateKey, now, storeOk)
            + (if !ps[k].served && storeOk(k) then [ArchiveEvent(ps[k], dateKey, now)] else [])
  {
    assert ps[..k + 1][..k] == ps[..k];
  }

  /** The indexes of the patient documents whose canceled event is stored:
      in increasing order, exactly those of an unserved patient whose
      analytics write succeeds. */
  function StoredIndexes(ps: seq<Patient>, storeOk: nat -> bool): (r: seq<nat>)
    ensures forall m :: 0 <= m < |r| ==> r[m] < |ps| && !ps[r[m]].served && storeOk(r[m])
    ensures forall i, j :: 0 <= i < j < |r| ==> r[i] < r[j]
    ensures forall k :: 0 <= k < |ps| && !ps[k].served && storeOk(k) ==> k in r
  {
    if ps == [] then []
    else
      var init := ps[..|ps| - 1];
      var r := StoredIndexes(init, storeOk)
        + (if !ps[|ps| - 1].served && storeOk(|ps| - 1) then [|ps| - 1] else []);
      assert forall k :: 0 <= k < |init| ==> init[k] == ps[k];
      r
  }

  /** Whichever analytics writes fail, the stored events are, in order, the
      canceled events of the patients at the stored indexes: a failed write
      drops that patient's event and moves no other. */
  lemma {:induction false} ArchivedEventsAreStoredOnes(ps: seq<Patient>, dateKey: int -> string, now: int, storeOk: nat -> bool)
    ensures |ArchivedEvents(ps, dateKey, now, storeOk)| == |StoredIndexes(ps, storeOk)|
    ensures forall m :: 0 <= m < |StoredIndexes(ps, storeOk)| ==>
      ArchivedEvents(ps, dateKey, now, storeOk)[m] == ArchiveEvent(ps[StoredIndexes(ps, storeOk)[m]], dateKey, now)
  {
    if ps != [] {
      var init, p := ps[..|ps| - 1], ps[|ps| - 1];
      ArchivedEventsAreStoredOnes(init, dateKey, now, storeOk);
      var a, idx := ArchivedEvents(init, dateKey, now, storeOk), StoredIndexes(init, storeOk);
      var stored := !p.served && storeOk(|ps| - 1);
      assert ArchivedEvents(ps, dateKey, now, storeOk) == a + (if stored then [ArchiveEvent(p, dateKey, now)] else []);
      assert StoredIndexes(ps, storeOk) == idx + (if stored then [|ps| - 1] else []);
      forall m | 0 <= m < |idx|
        ensures ps[idx[m]] == init[idx[m]]
      {
      }
    }
  }

  /** The doctors after the doctor step: the same documents in the same
      order, each no longer accepting patients, with nothing else changed. */
  function CloseAll(ds: seq<Doctor>): (r: seq<Doctor>)
    ensures |r| == |ds|
    ensures forall k :: 0 <= k < |r| ==> !r[k].acceptingQueues
    ensures forall k :: 0 <= k < |r| ==> r[k].(acceptingQueues := ds[k].acceptingQueues) == ds[k]
  {
    if ds == [] then [] else CloseAll(ds[..|ds| - 1]) + [ds[|ds| - 1].(acceptingQueues := false)]
  }

  function PatientIdNotIn(ids: seq<string>): Patient -> bool
  {
    (p: Patient) => p.id !in ids
  }

  /** The doctors after a batch that sets acceptingQueues to false on the
      documents with the given ids. */
  function ApplyClose(ds: seq<Doctor>, ids: seq<string>): (r: seq<Doctor>)
    ensures |r| == |ds|
    ensures forall k :: 0 <= k < |r| ==> r[k] == if ds[k].id in ids then ds[k].(acceptingQueues := false) else ds[k]
  {
    if ds == [] then []
    else
      var d := ds[|ds| - 1];
      ApplyClose(ds[..|ds| - 1], ids) + [if d.id in ids then d.(acceptingQueues := false) else d]
  }

  /** The whole effect of one run of performDailyReset on the collections
      and the marker, from (p0, d0, e0, m0) to (p1, d1, e1, m1). The marker
      is today exactly when every step succeeded; each failing step leaves
      its own collection and every later step's untouched. Clearing an empty
      collection and closing no doctors need no commit. */
  ghost predicate ResetEffect(p0: seq<Patient>, d0: seq<Doctor>, e0: seq<StoredEvent>, m0: Option<string>,
                              p1: seq<Patient>, d1: seq<Doctor>, e1: seq<StoredEvent>, m1: Option<string>,
                              dateKey: int -> string, today: string, now: int, f: Faults, r: ResetResult)
  {
    var archived := e0 + ArchivedEvents(p0, dateKey, now, f.storeOk);
    var clearOk := f.clearReadOk && (p0 == [] || f.clearCommitOk);
    var closeOk := f.doctorsReadOk && (d0 == [] || f.doctorsCommitOk);
    if !f.archiveReadOk then
      r == Failed(Archive) && p1 == p0 && d1 == d0 && e1 == e0 && m1 == m0
    else if !clearOk then
      r == Failed(Clear) && p1 == p0 && d1 == d0 && e1 == archived && m1 == m0
    else if !closeOk then
      r == Failed(CloseDoctors) && p1 == [] && d1 == d0 && e1 == archived && m1 == m0
    else
      r == Done && p1 == [] && d1 == CloseAll(d0) && e1 == archived && m1 == Some(today)
  }

  class ResetScheduler {
    var patients: seq<Patient>
    var doctors: seq<Doctor>
    /** localStorage's upnxt_last_reset_date. */
    var lastResetDate: Option<string>
    const store: AnalyticsStore

    constructor (patients: seq<Patient>, doctors: seq<Doctor>, lastResetDate: Option<string>, store: AnalyticsStore)
      ensures this.patients == patients && this.doctors == doctors
      ensures this.lastResetDate == lastResetDate && this.store == store
    {
      this.patients := patients;
      this.doctors := doctors;
      this.lastResetDate := lastResetDate;
      this.store := store;
    }

    /** archiveActivePatients: after reading the patient documents, logs one
        canceled event per unserved patient. A failed read throws; a failed
        analytics write is swallowed by logPatientEvent. */
    method ArchiveActivePatients(now: int, readOk: bool, storeOk: nat -> bool) returns (ok: bool)
      modifies store
      ensures ok == readOk
      ensures store.events == old(store.events) +
        (if readOk then ArchivedEvents(patients, store.dateKey, now, storeOk) else [])
    {
      if !readOk {
        return false;
      }
      var snapshot := patients;
      for k := 0 to |snapshot|
        invariant store.events == old(store.events) + ArchivedEvents(snapshot[..k], store.dateKey, now, storeOk)
      {
        ArchivedEventsSnoc(snapshot, k, store.dateKey, now, storeOk);
        var p := snapshot[k];
        if !p.served {
          var joinedAt := if p.timestamp.Some? then p.timestamp.value else now;
          store.LogPatientEvent(p.doctorId, p.name, joinedAt, Canceled, None, now, storeOk(k));
        }
      }
      assert snapshot[..|snapshot|] == snapshot;
      ok := true;
    }

    /** clearPatientsCollection: one batch deletes every patient document,
        served or not. An empty collection is left alone without a commit;
        a failed read or commit throws and deletes nothing. */
    method ClearPatientsCollection(readOk: bool, commitOk: bool) returns (ok: bool)
      modifies this
      ensures doctors == old(doctors) && lastResetDate == old(lastResetDate)
      ensures ok == (readOk && (old(patients) == [] || commitOk))
      ensures patients == if ok then [] else old(patients)
    {
      if !readOk {
        return false;
      }
      if patients == [] {
        return true;
      }
      var deletes: seq<string> := [];
      for k := 0 to |patients|
        invariant |deletes| == k
        invariant forall j :: 0 <= j < k ==> deletes[j] == patients[j].id
      {
        deletes := deletes + [patients[k].id];
      }
      if !commitOk {
        return false;
      }
      forall j | 0 <= j < |patients|
        ensures !PatientIdNotIn(deletes)(patients[j])
      {
        assert deletes[j] == patients[j].id;
      }
      FilterNone(patients, PatientIdNotIn(deletes));
      patients := Filter(patients, PatientIdNotIn(deletes));
      ok := true;
    }

    /** resetDoctorQueues: one batch sets acceptingQueues to false on every
        doctor document and changes no other field. No doctors means no
        commit; a failed read or commit throws and changes nothing. */
    method ResetDoctorQueues(readOk: bool, commitOk: bool) returns (ok: bool)
      modifies this
      ensures patients == old(patients) && lastResetDate == old(lastResetDate)
      ensures ok == (readOk && (old(doctors) == [] || commitOk))
      ensures doctors == if ok then CloseAll(old(doctors)) else old(doctors)
    {
      if !readOk {
        return false;
      }
      if doctors == [] {
        return true;
      }
      var updates: seq<string> := [];
      for k := 0 to |doctors|
        invariant |updates| == k
        invariant forall j :: 0 <= j < k ==> updates[j] == doctors[j].id
      {
        updates := updates + [doctors[k].id];
      }
      if !commitOk {
        return false;
      }
      var closed := ApplyClose(doctors, updates);
      forall j | 0 <= j < |doctors|
        ensures closed[j] == CloseAll(doctors)[j]
      {
        assert updates[j] == doctors[j].id;
      }
      doctors := closed;
      ok := true;
    }

    /** performDailyReset: archive, clear, close the doctors, then record
        today; the first step that throws stops the run, and the marker is
        written only when all three succeeded. */
    method PerformDailyReset(today: string, now: int, f: Faults) returns (r: ResetResult)
      modifies this, store
      ensures r != NotNeeded
      ensures ResetEffect(old(patients), old(doctors), old(store.events), old(lastResetDate),
                          patients, doctors, store.events, lastResetDate,
                          store.dateKey, today, now, f, r)
    {
      var ok := ArchiveActivePatients(now, f.archiveReadOk, f.storeOk);
      if !ok {
        return Failed(Archive);
      }
      ok := ClearPatientsCollection(f.clearReadOk, f.clearCommitOk);
      if !ok {
        return Failed(Clear);
      }
      ok := ResetDoctorQueues(f.doctorsReadOk, f.doctorsCommitOk);
      if !ok {
        return Failed(CloseDoctors);
      }
      lastResetDate := Some(today);
      r := Done;
    }

    /** checkAndPerformReset: runs the reset exactly when the recorded day
        differs from today; otherwise nothing changes. */
    method CheckAndPerformReset(today: string, now: int, f: Faults) returns (r: ResetResult)
      modifies this, store
      ensures old(lastResetDate) == Some(today) ==>
        r == NotNeeded && patients == old(patients) && doctors == old(doctors) &&
        store.events == old(store.events) && lastResetDate == old(lastResetDate)
      ensures old(lastResetDate) != Some(today) ==>
        ResetEffect(old(patients), old(doctors), old(store.events), old(lastResetDate),
                    patients, doctors, store.events, lastResetDate,
                    store.dateKey, today, now, f, r)
    {
      if lastResetDate != Some(today) {
        r := PerformDailyReset(today, now, f);
      } else {
        r := NotNeeded;
      }
    }

    /** manualReset: once confirmed, runs the reset whatever the marker says. */
    method ManualReset(confirmed: bool, today: string, now: int, f: Faults) returns (r: Option<ResetResult>)
      modifies this, store
      ensures !confirmed ==>
        r == None && patients == old(patients) && doctors == old(doctors) &&
        store.events == old(store.events) && lastResetDate == old(lastResetDate)
      ensures confirmed ==>
        r.Some? &&
        ResetEffect(old(patients), old(doctors), old(store.events), old(lastResetDate),
                    patients, doctors, store.events, lastResetDate,
                    store.dateKey, today, now, f, r.value)
    {
      if confirmed {
        var result := PerformDailyReset(today, now, f);
        r := Some(result);
      } else {
        r := None;
      }
    }
  }

  /** A check right after a completed reset on the same day finds today's
      reset recorded: a completed reset effect sets the marker to today,
      which is exactly the condition under which the check does nothing. */
  lemma CompletedResetIsRecorded(p0: seq<Patient>, d0: seq<Doctor>, e0: seq<StoredEvent>, m0: Option<string>,
                                 p1: seq<Patient>, d1: seq<Doctor>, e1: seq<StoredEvent>, m1: Option<string>,
                                 dateKey: int -> string, today: string, now: int, f: Faults, r: ResetResult)
    requires ResetEffect(p0, d0, e0, m0, p1, d1, e1, m1, dateKey, today, now, f, r)
    ensures r == Done ==> m1 == Some(today) && p1 == [] && forall k :: 0 <= k < |d1| ==> !d1[k].acceptingQueues
    ensures r != Done ==> m1 == m0
  {
  }
}
