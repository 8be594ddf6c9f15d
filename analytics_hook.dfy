/** The analytics hook (src/hooks/useAnalytics.ts): building and storing one
    analytics record per finished visit, reading the records of a range of
    days, and counting each doctor's waiting patients.

    Firestore is modelled in memory: the analytics collections are one list
    of stored events, each carrying the path analytics/{doctorId}/{day} it was
    written under. Dates are integer milliseconds; the ISO strings the source
    stores are in one-to-one correspondence with them. */
module AnalyticsHook {
  import opened Common
  import opened Types

  /** The outcome of a visit; AnalyticsRecord.status has exactly these values. */
  datatype Status = Served | Skipped | Canceled

  datatype AnalyticsRecord = AnalyticsRecord(
    doctorId: string,
    patientName: string,
    joinedAt: int,
    servedAt: Option<int>,
    status: Status,
    waitTimeMinutes: Option<int>)

  /** One document in analytics/{doctorId}/{day}: the record and its server
      timestamp. */
  datatype StoredEvent = StoredEvent(doctorId: string, day: string, record: AnalyticsRecord, timestamp: int)

  /** Math.round((servedAt - joinedAt) / (1000 * 60)): the wait in whole
      minutes, rounded half up (the result is the nearest integer to the wait
      in minutes, a half going up). */
  function WaitMinutes(joinedAt: int, servedAt: int): (w: int)
    ensures 2 * MsPerMinute * w <= 2 * (servedAt - joinedAt) + MsPerMinute < 2 * MsPerMinute * (w + 1)
  {
    RoundDiv(servedAt - joinedAt, MsPerMinute)
  }

  /** The record logPatientEvent builds: the given fields copied unchanged,
      and a wait time exactly when a serving time is given. */
  function MakeRecord(doctorId: string, patientName: string, joinedAt: int, status: Status, servedAt: Option<int>): (r: AnalyticsRecord)
    ensures r.doctorId == doctorId && r.patientName == patientName && r.status == status
    ensures r.joinedAt == joinedAt && r.servedAt == servedAt
    ensures r.waitTimeMinutes.Some? <==> servedAt.Some?
    ensures servedAt.Some? ==> r.waitTimeMinutes == Some(WaitMinutes(joinedAt, servedAt.value))
  {
    AnalyticsRecord(doctorId, patientName, joinedAt, servedAt, status,
      if servedAt.Some? then Some(WaitMinutes(joinedAt, servedAt.value)) else None)
  }

  function AtPath(doctorId: string, day: string): StoredEvent -> bool
  {
    (e: StoredEvent) => e.doctorId == doctorId && e.day == day
  }

  function TimestampKey(): StoredEvent -> int
  {
    (e: StoredEvent) => e.timestamp
  }

  /** query(collection(analytics/{doctorId}/{day}), orderBy('timestamp',
      'desc')): exactly the events stored under that path, each as often as
      stored, latest server timestamp first. */
  function DayQuery(events: seq<StoredEvent>, doctorId: string, day: string): (es: seq<StoredEvent>)
    ensures multiset(es) == multiset(Filter(events, AtPath(doctorId, day)))
    ensures forall e :: e in es <==> e in events && e.doctorId == doctorId && e.day == day
    ensures forall i, j :: 0 <= i < j < |es| ==> es[i].timestamp >= es[j].timestamp
  {
    var matching := Filter(events, AtPath(doctorId, day));
    var es := SortDesc(matching, TimestampKey());
    forall e ensures e in es <==> e in matching {
      assert e in es <==> e in multiset(es);
      assert e in matching <==> e in multiset(matching);
    }
    assert forall i, j :: 0 <= i < j < |es| ==> TimestampKey()(es[i]) >= TimestampKey()(es[j]);
    es
  }

  /** The records carried by a list of stored events, in the same order. */
  function Records(es: seq<StoredEvent>): (r: seq<AnalyticsRecord>)
    ensures |r| == |es|
    ensures forall k :: 0 <= k < |es| ==> r[k] == es[k].record
  {
    if es == [] then [] else Records(es[..|es| - 1]) + [es[|es| - 1].record]
  }

  /** A record is in the list exactly when some listed event carries it. */
  lemma RecordsMember(es: seq<StoredEvent>, x: AnalyticsRecord)
    ensures x in Records(es) <==> exists e :: e in es && e.record == x
  {
    var r := Records(es);
    if x in r {
      var k :| 0 <= k < |r| && r[k] == x;
      assert es[k] in es && es[k].record == x;
    }
    if exists e :: e in es && e.record == x {
      var e :| e in es && e.record == x;
      var k :| 0 <= k < |es| && es[k] == e;
      assert r[k] == x;
    }
  }

  /** The records one read of analytics/{doctorId}/{day} pushes, in the
      query's order: one per stored event under that path, latest
      timestamp first. */
  function RecordsAt(events: seq<StoredEvent>, doctorId: string, day: string): (r: seq<AnalyticsRecord>)
    ensures |r| == |Filter(events, AtPath(doctorId, day))|
    ensures forall k :: 0 <= k < |r| ==> r[k] == DayQuery(events, doctorId, day)[k].record
    ensures forall x :: x in r <==>
      exists e :: e in events && e.doctorId == doctorId && e.day == day && e.record == x
  {
    var es := DayQuery(events, doctorId, day);
    assert |es| == |multiset(es)| == |Filter(events, AtPath(doctorId, day))|;
    forall x ensures x in Records(es) <==> exists e :: e in events && e.doctorId == doctorId && e.day == day && e.record == x {
      RecordsMember(es, x);
    }
    Records(es)
  }

  /** The analytics collections. */
  class AnalyticsStore {
    /** format(date, 'yyyy-MM-dd') in the browser's time zone. */
    const dateKey: int -> string
    var events: seq<StoredEvent>

    constructor (dateKey: int -> string)
      ensures this.dateKey == dateKey && events == []
    {
      this.dateKey := dateKey;
      events := [];
    }

    /** logPatientEvent: stores the record under analytics/{doctorId}/{day of
        joinedAt} with the server time `now`. A failing write (storeOk false)
        is swallowed: nothing is stored and nothing is reported to the caller. */
    method LogPatientEvent(doctorId: string, patientName: string, joinedAt: int, status: Status,
                           servedAt: Option<int>, now: int, storeOk: bool)
      modifies this
      ensures events == old(events) +
        (if storeOk then [StoredEvent(doctorId, dateKey(joinedAt), MakeRecord(doctorId, patientName, joinedAt, status, servedAt), now)]
         else [])
    {
      var day := dateKey(joinedAt);
      var record := MakeRecord(doctorId, patientName, joinedAt, status, servedAt);
      if storeOk {
        events := events + [StoredEvent(doctorId, day, record, now)];
      }
    }
  }

  // ---------------------------------------------------------------------
  // getAnalyticsByDateRange

  /** The instants the date loop visits: startDate, then one day later, and
      so on while the instant is not after endDate. */
  function Walk(start: int, end: int): seq<int>
    decreases end - start
  {
    if start > end then [] else [start] + Walk(start + MsPerDay, end)
  }

  /** The walk visits start + k days for k = 0, 1, ..., floor((end - start) /
      one day), each exactly once and in increasing order, and nothing when
      start is after end. */
  lemma {:induction false} WalkShape(start: int, end: int)
    ensures |Walk(start, end)| == if start > end then 0 else (end - start) / MsPerDay + 1
    ensures forall k :: 0 <= k < |Walk(start, end)| ==> Walk(start, end)[k] == start + k * MsPerDay
    decreases end - start
  {
    if start <= end {
      var tail := Walk(start + MsPerDay, end);
      WalkShape(start + MsPerDay, end);
      if start + MsPerDay <= end {
        assert (end - start) / MsPerDay == (end - start - MsPerDay) / MsPerDay + 1;
      } else {
        assert (end - start) / MsPerDay == 0;
      }
      forall k | 0 < k < |Walk(start, end)|
        ensures Walk(start, end)[k] == start + k * MsPerDay
      {
        assert Walk(start, end)[k] == tail[k - 1];
      }
    }
  }

  /** The local calendar day number of an instant for a time zone with a
      fixed offset from UTC (the Philippines keeps UTC+8 all year). */
  function LocalDayNumber(t: int, offset: int): int
  {
    (t + offset) / MsPerDay
  }

  /** With a fixed offset the k-th visited instant falls k days after the
      first, so no day is visited twice. The last visited day is endDate's
      own day exactly when endDate's time of day is not earlier than
      startDate's: then the walk covers the day range inclusively. */
  lemma WalkCoversDays(start: int, end: int, offset: int)
    requires start <= end
    ensures forall k :: 0 <= k < |Walk(start, end)| ==>
      LocalDayNumber(Walk(start, end)[k], offset) == LocalDayNumber(start, offset) + k
    ensures (start + offset) % MsPerDay <= (end + offset) % MsPerDay <==>
      |Walk(start, end)| == LocalDayNumber(end, offset) - LocalDayNumber(start, offset) + 1
  {
    WalkShape(start, end);
    forall k | 0 <= k < |Walk(start, end)|
      ensures LocalDayNumber(Walk(start, end)[k], offset) == LocalDayNumber(start, offset) + k
    {
      assert Walk(start, end)[k] + offset == (start + offset) + k * MsPerDay;
    }
    var a, b := start + offset, end + offset;
    assert a == MsPerDay * (a / MsPerDay) + a % MsPerDay;
    assert b == MsPerDay * (b / MsPerDay) + b % MsPerDay;
  }

  /** A window from 10:00 one day to 09:00 the next visits only the first
      day: the loop compares instants, not calendar days. The dashboard's own
      ranges (now..now, start..end of week, midnight..midnight) never do this. */
  lemma WalkMissesLastDayWhenEndIsEarlierInTheDay()
    ensures |Walk(10 * 3600000, MsPerDay + 9 * 3600000)| == 1
    ensures LocalDayNumber(MsPerDay + 9 * 3600000, 0) == LocalDayNumber(10 * 3600000, 0) + 1
  {
    WalkShape(10 * 3600000, MsPerDay + 9 * 3600000);
  }

  /** Which analytics paths a day reads: one doctor's when a doctor id other
      than 'all' is given, otherwise every doctor of the doctors collection. */
  function DoctorsToRead(doctorId: Option<string>, doctorIds: seq<string>): seq<string>
  {
    if doctorId.Some? && doctorId.value != "" && doctorId.value != "all" then [doctorId.value]
    else doctorIds
  }

  /** What one visited day contributes: the records of each doctor read, in
      doctor order. */
  function RecordsOfDay(events: seq<StoredEvent>, ids: seq<string>, day: string): seq<AnalyticsRecord>
  {
    if ids == [] then []
    else RecordsOfDay(events, ids[..|ids| - 1], day) + RecordsAt(events, ids[|ids| - 1], day)
  }

  /** Everything the walk fetches before sorting, day by day. */
  function Fetched(events: seq<StoredEvent>, ids: seq<string>, dateKey: int -> string, days: seq<int>): seq<AnalyticsRecord>
  {
    if days == [] then []
    else Fetched(events, ids, dateKey, days[..|days| - 1]) + RecordsOfDay(events, ids, dateKey(days[|days| - 1]))
  }

  function JoinedKey(): AnalyticsRecord -> int
  {
    (r: AnalyticsRecord) => r.joinedAt
  }

  /** records.sort((a, b) => b.joinedAt - a.joinedAt): a stable sort by
      joinedAt, latest first. The result is ordered by joinedAt, latest
      first, and is a permutation of its input. */
  function SortByJoinedDesc(s: seq<AnalyticsRecord>): (r: seq<AnalyticsRecord>)
    ensures forall i, j :: 0 <= i < j < |r| ==> r[i].joinedAt >= r[j].joinedAt
    ensures multiset(r) == multiset(s)
  {
    var r := SortDesc(s, JoinedKey());
    assert forall i, j :: 0 <= i < j < |r| ==> JoinedKey()(r[i]) >= JoinedKey()(r[j]);
    r
  }

  /** The inner loop of one visited day: the records of each doctor read,
      appended in doctor order. */
  method ReadDay(events: seq<StoredEvent>, ids: seq<string>, day: string) returns (dayRecords: seq<AnalyticsRecord>)
    ensures dayRecords == RecordsOfDay(events, ids, day)
  {
    dayRecords := [];
    for k := 0 to |ids|
      invariant dayRecords == RecordsOfDay(events, ids[..k], day)
    {
      assert ids[..k + 1][..k] == ids[..k];
      dayRecords := dayRecords + RecordsAt(events, ids[k], day);
    }
    assert ids[..|ids|] == ids;
  }

  /** A record is read on a day exactly when it is stored that day under
      one of the doctors read. */
  lemma {:induction false} RecordsOfDayMember(events: seq<StoredEvent>, ids: seq<string>, day: string, x: AnalyticsRecord)
    ensures x in RecordsOfDay(events, ids, day) <==>
      exists e :: e in events && e.doctorId in ids && e.day == day && e.record == x
  {
    if ids != [] {
      var init, d := ids[..|ids| - 1], ids[|ids| - 1];
      assert ids == init + [d];
      assert forall id :: id in ids <==> id in init || id == d;
      RecordsOfDayMember(events, init, day, x);
      assert x in RecordsAt(events, d, day) <==>
        exists e :: e in events && e.doctorId == d && e.day == day && e.record == x;
    }
  }

  /** A record is fetched exactly when it is stored under one of the doctors
      read and on the day of one of the visited instants. */
  lemma {:induction false} FetchedMember(events: seq<StoredEvent>, ids: seq<string>, dateKey: int -> string,
                                         days: seq<int>, x: AnalyticsRecord)
    ensures x in Fetched(events, ids, dateKey, days) <==>
      exists e, t :: e in events && t in days && e.doctorId in ids && e.day == dateKey(t) && e.record == x
  {
    if days != [] {
      var init, t := days[..|days| - 1], days[|days| - 1];
      assert days == init + [t];
      assert forall u :: u in days <==> u in init || u == t;
      FetchedMember(events, ids, dateKey, init, x);
      RecordsOfDayMember(events, ids, dateKey(t), x);
    }
  }

  lemma FetchedSnoc(events: seq<StoredEvent>, ids: seq<string>, dateKey: int -> string, days: seq<int>, t: int)
    ensures Fetched(events, ids, dateKey, days + [t]) == Fetched(events, ids, dateKey, days) + RecordsOfDay(events, ids, dateKey(t))
  {
    assert (days + [t])[..|days|] == days;
  }

  /** The date loop of getAnalyticsByDateRange: from startDate, one day at
      a time while not after endDate, appending each day's records. */
  method FetchRange(events: seq<StoredEvent>, ids: seq<string>, dateKey: int -> string, startDate: int, endDate: int)
    returns (records: seq<AnalyticsRecord>)
    ensures records == Fetched(events, ids, dateKey, Walk(startDate, endDate))
  {
    records := [];
    var currentDate := startDate;
    ghost var visited: seq<int> := [];
    while currentDate <= endDate
      invariant Walk(startDate, endDate) == visited + Walk(currentDate, endDate)
      invariant records == Fetched(events, ids, dateKey, visited)
      decreases endDate - currentDate
    {
      var dateString := dateKey(currentDate);
      var dayRecords := ReadDay(events, ids, dateString);
      FetchedSnoc(events, ids, dateKey, visited, currentDate);
      records := records + dayRecords;
      visited := visited + [currentDate];
      currentDate := currentDate + MsPerDay;
    }
    assert visited + [] == visited;
  }

  /** The hook's React state. */
  class AnalyticsState {
    var analytics: seq<AnalyticsRecord>
    var loading: bool

    constructor ()
      ensures analytics == [] && !loading
    {
      analytics := [];
      loading := false;
    }

    /** getAnalyticsByDateRange: walks the days from startDate to endDate,
        collects the records of the chosen doctors for each day, sorts them
        by joinedAt (latest first) and publishes them. If any read fails
        (fetchOk false) the published records stay as they were. Either way
        loading ends false. */
    method GetAnalyticsByDateRange(store: AnalyticsStore, startDate: int, endDate: int,
                                   doctorId: Option<string>, doctorIds: seq<string>, fetchOk: bool)
      modifies this
      ensures !loading
      ensures !fetchOk ==> analytics == old(analytics)
      ensures fetchOk ==>
        analytics == SortByJoinedDesc(Fetched(store.events, DoctorsToRead(doctorId, doctorIds), store.dateKey, Walk(startDate, endDate)))
    {
      loading := true;
      var events, dateKey := store.events, store.dateKey;
      var ids := DoctorsToRead(doctorId, doctorIds);
      var records := FetchRange(events, ids, dateKey, startDate, endDate);
      if fetchOk {
        analytics := SortByJoinedDesc(records);
      }
      loading := false;
    }
  }

  // ---------------------------------------------------------------------
  // getCurrentQueueSizes

  /** One key of the queueSizes dictionary; JavaScript objects keep their
      keys in insertion order, so the dictionary is a list of entries. */
  datatype SizeEntry = SizeEntry(doctorId: string, count: nat)

  ghost predicate DistinctKeys(sizes: seq<SizeEntry>)
  {
    forall i, j :: 0 <= i < j < |sizes| ==> sizes[i].doctorId != sizes[j].doctorId
  }

  /** The index of key d in the dictionary, if present. */
  function IndexOfKey(sizes: seq<SizeEntry>, d: string): (r: Option<nat>)
    ensures r.Some? ==> r.value < |sizes| && sizes[r.value].doctorId == d
    ensures r.Some? ==> forall j :: 0 <= j < r.value ==> sizes[j].doctorId != d
    ensures r.None? ==> forall j :: 0 <= j < |sizes| ==> sizes[j].doctorId != d
  {
    if sizes == [] then None
    else if sizes[0].doctorId == d then Some(0)
    else
      match IndexOfKey(sizes[1..], d)
      case None => None
      case Some(j) => Some(j + 1)
  }

  /** queueSizes[d] || 0 */
  function SizeOf(sizes: seq<SizeEntry>, d: string): nat
  {
    match IndexOfKey(sizes, d)
    case None => 0
    case Some(j) => sizes[j].count
  }

  /** queueSizes[d] = (queueSizes[d] || 0) + 1 */
  function Increment(sizes: seq<SizeEntry>, d: string): seq<SizeEntry>
  {
    match IndexOfKey(sizes, d)
    case None => sizes + [SizeEntry(d, 1)]
    case Some(j) => sizes[j := SizeEntry(d, sizes[j].count + 1)]
  }

  /** Object.values(queueSizes).reduce((sum, size) => sum + size, 0): the
      total is at least every single count, and is 0 exactly when every count
      is 0. */
  function SumCounts(sizes: seq<SizeEntry>): (n: nat)
    ensures forall k :: 0 <= k < |sizes| ==> sizes[k].count <= n
    ensures n == 0 <==> forall k :: 0 <= k < |sizes| ==> sizes[k].count == 0
  {
    if sizes == [] then 0
    else
      var init := sizes[..|sizes| - 1];
      assert forall k :: 0 <= k < |init| ==> init[k] == sizes[k];
      SumCounts(init) + sizes[|sizes| - 1].count
  }

  lemma {:induction false} SumCountsUpdate(sizes: seq<SizeEntry>, j: nat, e: SizeEntry)
    requires j < |sizes|
    ensures SumCounts(sizes[j := e]) == SumCounts(sizes) - sizes[j].count + e.count
  {
    var n := |sizes|;
    var s' := sizes[j := e];
    if j < n - 1 {
      assert s'[..n - 1] == sizes[..n - 1][j := e];
      SumCountsUpdate(sizes[..n - 1], j, e);
    } else {
      assert s'[..n - 1] == sizes[..n - 1];
    }
  }

  /** The index of a key depends on the keys only. */
  lemma IndexOfSameKeys(a: seq<SizeEntry>, b: seq<SizeEntry>, e: string)
    requires |a| == |b|
    requires forall k :: 0 <= k < |a| ==> a[k].doctorId == b[k].doctorId
    ensures IndexOfKey(a, e) == IndexOfKey(b, e)
  {
  }

  /** Appending a key finds an earlier key first, then the new one. */
  lemma IndexOfAppend(s: seq<SizeEntry>, x: SizeEntry, e: string)
    ensures IndexOfKey(s + [x], e) ==
      if IndexOfKey(s, e).Some? then IndexOfKey(s, e)
      else if x.doctorId == e then Some(|s|)
      else None
  {
    assert forall k :: 0 <= k < |s| ==> (s + [x])[k] == s[k];
    if IndexOfKey(s, e).None? && x.doctorId == e {
      assert (s + [x])[|s|].doctorId == e;
    }
  }

  /** Incrementing keeps the keys distinct and the counts positive. */
  lemma IncrementKeepsShape(sizes: seq<SizeEntry>, d: string)
    requires DistinctKeys(sizes)
    requires forall k :: 0 <= k < |sizes| ==> sizes[k].count > 0
    ensures DistinctKeys(Increment(sizes, d))
    ensures forall k :: 0 <= k < |Increment(sizes, d)| ==> Increment(sizes, d)[k].count > 0
  {
  }

  /** Incrementing d adds one to d's count and leaves every other key's. */
  lemma IncrementSizeOf(sizes: seq<SizeEntry>, d: string, e: string)
    ensures SizeOf(Increment(sizes, d), e) == SizeOf(sizes, e) + (if e == d then 1 else 0)
  {
    var s' := Increment(sizes, d);
    match IndexOfKey(sizes, d)
    case None =>
      IndexOfAppend(sizes, SizeEntry(d, 1), e);
    case Some(j) =>
      IndexOfSameKeys(s', sizes, e);
  }

  /** Incrementing adds one to the total. */
  lemma IncrementSum(sizes: seq<SizeEntry>, d: string)
    ensures SumCounts(Increment(sizes, d)) == SumCounts(sizes) + 1
  {
    match IndexOfKey(sizes, d)
    case None =>
      assert (sizes + [SizeEntry(d, 1)])[..|sizes|] == sizes;
    case Some(j) =>
      SumCountsUpdate(sizes, j, SizeEntry(d, sizes[j].count + 1));
  }

  /** The patients in ps whose doctorId is d. */
  function CountFor(ps: seq<Patient>, d: string): nat
  {
    |Filter(ps, (p: Patient) => p.doctorId == d)|
  }

  lemma CountForSnoc(ps: seq<Patient>, p: Patient, d: string)
    ensures CountFor(ps + [p], d) == CountFor(ps, d) + (if p.doctorId == d then 1 else 0)
  {
    assert (ps + [p])[..|ps|] == ps;
  }

  /** The dictionary counts the patients ps: distinct keys, only positive
      counts, each doctor's count its number of patients in ps, and the
      counts adding up to |ps|. */
  ghost predicate Counts(sizes: seq<SizeEntry>, ps: seq<Patient>)
  {
    && DistinctKeys(sizes)
    && (forall k :: 0 <= k < |sizes| ==> sizes[k].count > 0)
    && (forall d :: SizeOf(sizes, d) == CountFor(ps, d))
    && SumCounts(sizes) == |ps|
  }

  /** One step of the forEach: incrementing the patient's doctor counts one
      more patient. */
  lemma IncrementCounts(sizes: seq<SizeEntry>, ps: seq<Patient>, p: Patient)
    requires Counts(sizes, ps)
    ensures Counts(Increment(sizes, p.doctorId), ps + [p])
  {
    IncrementKeepsShape(sizes, p.doctorId);
    IncrementSum(sizes, p.doctorId);
    forall d ensures SizeOf(Increment(sizes, p.doctorId), d) == CountFor(ps + [p], d) {
      IncrementSizeOf(sizes, p.doctorId, d);
      CountForSnoc(ps, p, d);
    }
  }

  /** getCurrentQueueSizes: for each doctor, the number of unserved patients
      with that doctorId. Doctors with no such patient have no key, the keys
      are distinct, and the counts add up to the number of unserved patients.
      A failing read yields the empty dictionary. */
  method GetCurrentQueueSizes(patients: seq<Patient>, fetchOk: bool) returns (sizes: seq<SizeEntry>)
    ensures !fetchOk ==> sizes == []
    ensures fetchOk ==> DistinctKeys(sizes)
    ensures fetchOk ==> forall k :: 0 <= k < |sizes| ==> sizes[k].count > 0
    ensures fetchOk ==> forall d :: SizeOf(sizes, d) == CountFor(Unserved(patients), d)
    ensures fetchOk ==> SumCounts(sizes) == |Unserved(patients)|
  {
    if !fetchOk {
      return [];
    }
    var snapshot := Unserved(patients);
    sizes := [];
    for i := 0 to |snapshot|
      invariant Counts(sizes, snapshot[..i])
    {
      assert snapshot[..i + 1] == snapshot[..i] + [snapshot[i]];
      IncrementCounts(sizes, snapshot[..i], snapshot[i]);
      sizes := Increment(sizes, snapshot[i].doctorId);
    }
    assert snapshot[..|snapshot|] == snapshot;
  }
}
