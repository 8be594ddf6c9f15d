/** The clinic queue hook (src/hooks/useQueue.ts): the `queue` and `served`
    collections of one clinic, the four transitions between them, and the
    day's statistics written after a reset.

    Each Firestore batch is one atomic step whose commit either succeeds or
    throws (the commitOk parameter); the store assigns document ids from a
    counter. serverTimestamp() is the `now` parameter. A UTC ISO date string
    is identified with its UTC day number. */
module QueueHook {
  import opened Common
  import AnalyticsHook

  datatype QueueStatus = Waiting | Served | Skipped | Canceled

  /** The fields the caller passes to addPatient. */
  datatype PatientData = PatientData(name: string, phone: string, doctorId: string)

  /** One document of the queue or served collection. A served document is
      a copy of the queue document, own id included. */
  datatype Entry = Entry(id: nat, data: PatientData, status: QueueStatus, joinedAt: Option<int>, servedAt: Option<int>)

  /** How a transition ended: its batch committed, it returned early without
      writing, or the commit threw. */
  datatype Outcome = Committed | NoOp | Threw

  /** The statistics document calculateDailyAnalytics writes. */
  datatype DailyStats = DailyStats(
    totalServed: nat,
    totalSkipped: nat,
    totalCanceled: nat,
    averageWaitTime: int,
    shortestWaitTime: int,
    longestWaitTime: int,
    queueSize: nat)

  predicate UniqueIds(q: seq<Entry>)
  {
    forall a, b :: 0 <= a < b < |q| ==> q[a].id != q[b].id
  }

  /** queuePatients.find(p => p.id === id): the first index holding the id. */
  function FindById(q: seq<Entry>, id: nat): (r: Option<nat>)
    ensures r.None? <==> forall k :: 0 <= k < |q| ==> q[k].id != id
    ensures r.Some? ==> r.value < |q| && q[r.value].id == id
    ensures r.Some? ==> forall k :: 0 <= k < r.value ==> q[k].id != id
  {
    if q == [] then None
    else if q[0].id == id then Some(0)
    else match FindById(q[1..], id)
      case None => None
      case Some(i) => Some(i + 1)
  }

  /** The record the batch writes to `served`: the patient, with the new
      status and the serving time. */
  function Finished(e: Entry, status: QueueStatus, now: int): Entry
  {
    e.(status := status, servedAt := Some(now))
  }

  function IdIsNot(id: nat): Entry -> bool
  {
    (e: Entry) => e.id != id
  }

  /** One transition of servePatient, skipPatient or removePatient, from the
      collections q0, s0 to q1, s1: an id not in the queue changes nothing;
      otherwise a committed batch deletes that entry and appends its
      finished copy, and a failed one changes nothing. */
  ghost predicate Completes(q0: seq<Entry>, s0: seq<Entry>, q1: seq<Entry>, s1: seq<Entry>,
                            id: nat, status: QueueStatus, now: int, commitOk: bool, r: Outcome)
  {
    match FindById(q0, id)
    case None => r == NoOp && q1 == q0 && s1 == s0
    case Some(i) =>
      if commitOk then r == Committed && q1 == q0[..i] + q0[i + 1..] && s1 == s0 + [Finished(q0[i], status, now)]
      else r == Threw && q1 == q0 && s1 == s0
  }

  /** Deleting the document at index i of a queue with distinct ids removes
      exactly the entries with that id: the rest keep their relative order. */
  lemma DeleteOnlyTarget(q: seq<Entry>, i: nat)
    requires UniqueIds(q) && i < |q|
    ensures q[..i] + q[i + 1..] == Filter(q, IdIsNot(q[i].id))
  {
    FilterRemovesOne(q, i, IdIsNot(q[i].id));
  }

  /** What a committed transition does, stated without indexes: the queue
      loses exactly the entry with that id, every other entry stays in its
      relative order (the queue filtered by id), and `served` gains exactly
      one record equal to that entry except for its status and serving time. */
  lemma CompletionEffect(q0: seq<Entry>, s0: seq<Entry>, q1: seq<Entry>, s1: seq<Entry>,
                         id: nat, status: QueueStatus, now: int, commitOk: bool, r: Outcome)
    requires UniqueIds(q0)
    requires Completes(q0, s0, q1, s1, id, status, now, commitOk, r)
    ensures r == Committed ==> |q1| == |q0| - 1 && |s1| == |s0| + 1
    ensures r == Committed ==> q1 == Filter(q0, IdIsNot(id))
    ensures r == Committed ==> s1[..|s0|] == s0
    ensures r == Committed ==>
      exists k :: 0 <= k < |q0| && q0[k].id == id && s1[|s0|] == Finished(q0[k], status, now)
    ensures r != Committed ==> q1 == q0 && s1 == s0
  {
    if r == Committed {
      var i := FindById(q0, id).value;
      DeleteOnlyTarget(q0, i);
      assert s1[..|s0|] == s0;
    }
  }

  function Ids(q: seq<Entry>): (r: seq<nat>)
    ensures |r| == |q|
    ensures forall k :: 0 <= k < |q| ==> r[k] == q[k].id
  {
    if q == [] then [] else Ids(q[..|q| - 1]) + [q[|q| - 1].id]
  }

  function NotDeleted(deleted: seq<nat>): Entry -> bool
  {
    (e: Entry) => e.id !in deleted
  }

  /** The canceled copies resetQueue writes for the entries of q, in order. */
  function CanceledAll(q: seq<Entry>, now: int): (r: seq<Entry>)
    ensures |r| == |q|
    ensures forall k :: 0 <= k < |q| ==> r[k] == Finished(q[k], Canceled, now)
  {
    if q == [] then [] else CanceledAll(q[..|q| - 1], now) + [Finished(q[|q| - 1], Canceled, now)]
  }

  function UtcDay(t: int): int
  {
    t / MsPerDay
  }

  function ServedOn(day: int): Entry -> bool
  {
    (e: Entry) => e.servedAt.Some? && UtcDay(e.servedAt.value) == day
  }

  function HasStatus(status: QueueStatus): Entry -> bool
  {
    (e: Entry) => e.status == status
  }

  predicate Stamped(e: Entry)
  {
    e.joinedAt.Some? && e.servedAt.Some?
  }

  function WaitOf(e: Entry): int
    requires Stamped(e)
  {
    AnalyticsHook.WaitMinutes(e.joinedAt.value, e.servedAt.value)
  }

  /** The wait times of the records that carry both stamps: one per such
      record, in order, each the rounded wait in minutes. */
  function WaitTimes(s: seq<Entry>): (w: seq<int>)
    ensures |w| == |Filter(s, Stamped)|
    ensures forall k :: 0 <= k < |w| ==> Stamped(Filter(s, Stamped)[k]) && w[k] == WaitOf(Filter(s, Stamped)[k])
  {
    if s == [] then []
    else
      var e := s[|s| - 1];
      WaitTimes(s[..|s| - 1]) + (if Stamped(e) then [WaitOf(e)] else [])
  }

  function CountStatus(s: seq<Entry>, status: QueueStatus): nat
  {
    |Filter(s, HasStatus(status))|
  }

  /** The average, shortest and longest of a list of wait times: the
      rounded mean, the minimum and the maximum, each a value between the
      bounds of the list, and all three 0 for no wait times. */
  function WaitStats(w: seq<int>): (r: (int, int, int))
    ensures w == [] ==> r == (0, 0, 0)
    ensures w != [] ==> r.0 == RoundDiv(Sum(w), |w|)
    ensures w != [] ==> r.1 <= r.0 <= r.2 && r.1 in w && r.2 in w
    ensures forall k :: 0 <= k < |w| ==> r.1 <= w[k] <= r.2
  {
    if w == [] then (0, 0, 0)
    else
      var avg, lo, hi := RoundDiv(Sum(w), |w|), Min(w), Max(w);
      MeanBetweenMinMax(w);
      assert forall k :: 0 <= k < |w| ==> lo <= w[k] <= hi by {
        forall k | 0 <= k < |w| ensures lo <= w[k] <= hi { assert w[k] in w; }
      }
      (avg, lo, hi)
  }

  /** The records served on the UTC day of `now`. */
  function Today(served: seq<Entry>, now: int): seq<Entry>
  {
    Filter(served, ServedOn(UtcDay(now)))
  }

  /** calculateDailyAnalytics over the given snapshot of the two
      collections: the counts by status of the records served today (UTC),
      the wait statistics of today's records with status `served` (only
      those carrying both stamps give a wait time), and the queue length. */
  function DailyAnalytics(served: seq<Entry>, queue: seq<Entry>, now: int): (a: DailyStats)
    ensures a.totalServed == CountStatus(Today(served, now), Served)
    ensures a.totalSkipped == CountStatus(Today(served, now), Skipped)
    ensures a.totalCanceled == CountStatus(Today(served, now), Canceled)
    ensures a.queueSize == |queue|
    ensures var st := WaitStats(WaitTimes(Filter(Today(served, now), HasStatus(Served))));
      a.averageWaitTime == st.0 && a.shortestWaitTime == st.1 && a.longestWaitTime == st.2
  {
    var today := Today(served, now);
    var st := WaitStats(WaitTimes(Filter(today, HasStatus(Served))));
    DailyStats(CountStatus(today, Served), CountStatus(today, Skipped), CountStatus(today, Canceled),
               st.0, st.1, st.2, |queue|)
  }

  /** The three status counts of finished records add up to all records. */
  lemma {:induction false} CountsPartition(s: seq<Entry>)
    requires forall k :: 0 <= k < |s| ==> s[k].status != Waiting
    ensures CountStatus(s, Served) + CountStatus(s, Skipped) + CountStatus(s, Canceled) == |s|
  {
    if s != [] {
      CountsPartition(s[..|s| - 1]);
    }
  }

  /** The day's totals count every record served today exactly once, since
      every record in `served` carries one of the three final statuses. */
  lemma DailyTotalsCoverToday(served: seq<Entry>, queue: seq<Entry>, now: int)
    requires forall k :: 0 <= k < |served| ==> served[k].status != Waiting
    ensures var a := DailyAnalytics(served, queue, now);
      a.totalServed + a.totalSkipped + a.totalCanceled == |Today(served, now)|
  {
    var today := Today(served, now);
    forall k | 0 <= k < |today|
      ensures today[k].status != Waiting
    {
      assert today[k] in served;
    }
    CountsPartition(today);
  }

  /** The clinic's two collections and its analytics documents, keyed by
      UTC day. */
  class QueueStore {
    var queue: seq<Entry>
    var served: seq<Entry>
    var dailyStats: map<int, DailyStats>
    var nextId: nat

    /** Every queue document is waiting and has a distinct id below the next
        one the store hands out; every served document is finished and
        stamped. */
    ghost predicate Valid()
      reads this
    {
      && UniqueIds(queue)
      && (forall k :: 0 <= k < |queue| ==> queue[k].status == Waiting && queue[k].id < nextId)
      && (forall k :: 0 <= k < |served| ==> served[k].status != Waiting && served[k].servedAt.Some?)
    }

    /** Empty collections over the statistics documents that already exist
        in the `analytics` collection; nothing in this hook creates one. */
    constructor(existingStats: map<int, DailyStats>)
      ensures Valid()
      ensures queue == [] && served == [] && dailyStats == existingStats && nextId == 0
    {
      queue, served, dailyStats, nextId := [], [], existingStats, 0;
    }

    /** addPatient: a committed write appends the given fields as a new
        waiting document stamped with the join time; a failed one throws
        and changes nothing. */
    method AddPatient(data: PatientData, now: int, commitOk: bool) returns (r: Outcome)
      requires Valid()
      modifies this
      ensures Valid()
      ensures served == old(served) && dailyStats == old(dailyStats)
      ensures commitOk ==>
        r == Committed && nextId == old(nextId) + 1 &&
        queue == old(queue) + [Entry(old(nextId), data, Waiting, Some(now), None)]
      ensures !commitOk ==> r == Threw && queue == old(queue) && nextId == old(nextId)
    {
      if !commitOk {
        return Threw;
      }
      queue := queue + [Entry(nextId, data, Waiting, Some(now), None)];
      nextId := nextId + 1;
      r := Committed;
    }

    /** The transition servePatient, skipPatient and removePatient share. */
    method Complete(id: nat, status: QueueStatus, now: int, commitOk: bool) returns (r: Outcome)
      requires Valid() && status != Waiting
      modifies this
      ensures Valid()
      ensures nextId == old(nextId) && dailyStats == old(dailyStats)
      ensures Completes(old(queue), old(served), queue, served, id, status, now, commitOk, r)
    {
      var found := FindById(queue, id);
      if found.None? {
        return NoOp;
      }
      var i := found.value;
      if !commitOk {
        return Threw;
      }
      served := served + [Finished(queue[i], status, now)];
      queue := queue[..i] + queue[i + 1..];
      r := Committed;
    }

    method ServePatient(id: nat, now: int, commitOk: bool) returns (r: Outcome)
      requires Valid()
      modifies this
      ensures Valid()
      ensures nextId == old(nextId) && dailyStats == old(dailyStats)
      ensures Completes(old(queue), old(served), queue, served, id, Served, now, commitOk, r)
    {
      r := Complete(id, Served, now, commitOk);
    }

    method SkipPatient(id: nat, now: int, commitOk: bool) returns (r: Outcome)
      requires Valid()
      modifies this
      ensures Valid()
      ensures nextId == old(nextId) && dailyStats == old(dailyStats)
      ensures Completes(old(queue), old(served), queue, served, id, Skipped, now, commitOk, r)
    {
      r := Complete(id, Skipped, now, commitOk);
    }

    method RemovePatient(id: nat, now: int, commitOk: bool) returns (r: Outcome)
      requires Valid()
      modifies this
      ensures Valid()
      ensures nextId == old(nextId) && dailyStats == old(dailyStats)
      ensures Completes(old(queue), old(served), queue, served, id, Canceled, now, commitOk, r)
    {
      r := Complete(id, Canceled, now, commitOk);
    }

    /** calculateDailyAnalytics: the statistics of the snapshot it was given
        replace today's analytics document. updateDoc fails on a document
        that does not exist, and any failure is logged and swallowed. */
    method CalculateDailyAnalytics(servedSnapshot: seq<Entry>, queueSnapshot: seq<Entry>, now: int, writeOk: bool)
      modifies this
      ensures queue == old(queue) && served == old(served) && nextId == old(nextId)
      ensures dailyStats ==
        if writeOk && UtcDay(now) in old(dailyStats)
        then old(dailyStats)[UtcDay(now) := DailyAnalytics(servedSnapshot, queueSnapshot, now)]
        else old(dailyStats)
    {
      if writeOk && UtcDay(now) in dailyStats {
        dailyStats := dailyStats[UtcDay(now) := DailyAnalytics(servedSnapshot, queueSnapshot, now)];
      }
    }

    /** resetQueue: unless the user declines, one batch writes a canceled
        copy of every queue entry and deletes them all. After the commit the
        statistics are computed from the lists the hook held BEFORE the
        reset, so the entries just canceled are not among them and
        queueSize is the former queue length. */
    method ResetQueue(confirmed: bool, now: int, commitOk: bool, writeOk: bool) returns (r: Outcome)
      requires Valid()
      modifies this
      ensures Valid()
      ensures nextId == old(nextId)
      ensures !confirmed ==> r == NoOp && queue == old(queue) && served == old(served) && dailyStats == old(dailyStats)
      ensures confirmed && !commitOk ==> r == Threw && queue == old(queue) && served == old(served) && dailyStats == old(dailyStats)
      ensures confirmed && commitOk ==>
        r == Committed && queue == [] &&
        served == old(served) + CanceledAll(old(queue), now) &&
        dailyStats == (if writeOk && UtcDay(now) in old(dailyStats)
                       then old(dailyStats)[UtcDay(now) := DailyAnalytics(old(served), old(queue), now)]
                       else old(dailyStats))
    {
      if !confirmed {
        return NoOp;
      }
      var sets: seq<Entry> := [];
      var deletes: seq<nat> := [];
      for k := 0 to |queue|
        invariant sets == CanceledAll(queue[..k], now)
        invariant deletes == Ids(queue[..k])
      {
        assert queue[..k + 1] == queue[..k] + [queue[k]];
        sets := sets + [Finished(queue[k], Canceled, now)];
        deletes := deletes + [queue[k].id];
      }
      if !commitOk {
        return Threw;
      }
      assert queue[..|queue|] == queue;
      var servedBefore, queueBefore := served, queue;
      served := served + sets;
      forall j | 0 <= j < |queue|
        ensures !NotDeleted(deletes)(queue[j])
      {
        assert deletes[j] == queue[j].id;
      }
      FilterNone(queue, NotDeleted(deletes));
      queue := Filter(queue, NotDeleted(deletes));
      CalculateDailyAnalytics(servedBefore, queueBefore, now, writeOk);
      r := Committed;
    }
  }
}
