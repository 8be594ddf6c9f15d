/** The analytics dashboard's derived numbers (src/components/Analytics.tsx):
    the summary cards, the per-day trend table, the per-doctor table and the
    status distribution, all computed from the fetched analytics records
    and the current queue sizes. */
module AnalyticsView {
  import opened Common
  import opened Types
  import opened AnalyticsHook

  function HasStatus(st: Status): AnalyticsRecord -> bool
  {
    (r: AnalyticsRecord) => r.status == st
  }

  /** analytics.filter(r => r.status === st).length */
  function StatusCount(rs: seq<AnalyticsRecord>, st: Status): nat
  {
    |Filter(rs, HasStatus(st))|
  }

  /** Every record has one of the three statuses, so the three counts add
      up to the number of records. */
  lemma {:induction false} StatusCountsPartition(rs: seq<AnalyticsRecord>)
    ensures StatusCount(rs, Served) + StatusCount(rs, Skipped) + StatusCount(rs, Canceled) == |rs|
  {
    if rs != [] {
      StatusCountsPartition(rs[..|rs| - 1]);
    }
  }

  /** filteredDoctors: every doctor for "all", otherwise exactly the doctors
      with the selected id, in their original order. */
  function FilteredDoctors(doctors: seq<Doctor>, selected: string): (r: seq<Doctor>)
    ensures selected == "all" ==> r == doctors
    ensures selected != "all" ==> forall k :: 0 <= k < |r| ==> r[k] in doctors && r[k].id == selected
    ensures selected != "all" ==> forall k :: 0 <= k < |doctors| && doctors[k].id == selected ==> doctors[k] in r
  {
    if selected == "all" then doctors else Filter(doctors, (d: Doctor) => d.id == selected)
  }

  // ---------------------------------------------------------------------
  // Summary cards

  /** totalPatientsToday, a reduce adding one per served record: the number
      of served records. */
  function TotalPatientsToday(rs: seq<AnalyticsRecord>): (n: nat)
    ensures n == StatusCount(rs, Served)
  {
    if rs == [] then 0
    else TotalPatientsToday(rs[..|rs| - 1]) + (if rs[|rs| - 1].status == Served then 1 else 0)
  }

  /** totalSkippedCanceled, a reduce adding one per skipped or canceled
      record: the skipped count plus the canceled count. */
  function TotalSkippedCanceled(rs: seq<AnalyticsRecord>): (n: nat)
    ensures n == StatusCount(rs, Skipped) + StatusCount(rs, Canceled)
  {
    if rs == [] then 0
    else
      var st := rs[|rs| - 1].status;
      TotalSkippedCanceled(rs[..|rs| - 1]) + (if st == Skipped || st == Canceled then 1 else 0)
  }

  /** The two summary counts together cover every record once. */
  lemma SummaryCoversAll(rs: seq<AnalyticsRecord>)
    ensures TotalPatientsToday(rs) + TotalSkippedCanceled(rs) == |rs|
  {
    StatusCountsPartition(rs);
  }

  /** record.waitTimeMinutes || 0 */
  function WaitOrZero(r: AnalyticsRecord): int
  {
    if r.waitTimeMinutes.Some? then r.waitTimeMinutes.value else 0
  }

  /** The reduce summing (waitTimeMinutes || 0) over the records. */
  function SumWaits(rs: seq<AnalyticsRecord>): int
  {
    if rs == [] then 0 else SumWaits(rs[..|rs| - 1]) + WaitOrZero(rs[|rs| - 1])
  }

  /** The list of (waitTimeMinutes || 0) values, one per record. */
  function WaitsOrZero(rs: seq<AnalyticsRecord>): (w: seq<int>)
    ensures |w| == |rs|
    ensures forall k :: 0 <= k < |rs| ==> w[k] == WaitOrZero(rs[k])
  {
    if rs == [] then [] else WaitsOrZero(rs[..|rs| - 1]) + [WaitOrZero(rs[|rs| - 1])]
  }

  lemma {:induction false} SumWaitsIsSum(rs: seq<AnalyticsRecord>)
    ensures SumWaits(rs) == Sum(WaitsOrZero(rs))
  {
    if rs != [] {
      SumWaitsIsSum(rs[..|rs| - 1]);
      assert WaitsOrZero(rs)[..|rs| - 1] == WaitsOrZero(rs[..|rs| - 1]);
    }
  }

  /** averageWaitTime: the rounded mean of (wait or 0) over ALL records,
      records without a wait time counting as 0; 0 for no records. It lies
      between the smallest and the largest of the values averaged. */
  function AverageWaitTime(rs: seq<AnalyticsRecord>): (avg: int)
    ensures rs == [] ==> avg == 0
    ensures rs != [] ==> avg == RoundDiv(Sum(WaitsOrZero(rs)), |rs|)
    ensures rs != [] ==> Min(WaitsOrZero(rs)) <= avg <= Max(WaitsOrZero(rs))
  {
    if rs == [] then 0
    else
      SumWaitsIsSum(rs);
      MeanBetweenMinMax(WaitsOrZero(rs));
      RoundDiv(SumWaits(rs), |rs|)
  }

  // ---------------------------------------------------------------------
  // dailyTrends

  /** One row of the trend table: a date label and three counters. */
  datatype Trend = Trend(date: string, served: nat, skipped: nat, canceled: nat)

  /** The counter of a row for one status. */
  function Field(t: Trend, st: Status): nat
  {
    match st
    case Served => t.served
    case Skipped => t.skipped
    case Canceled => t.canceled
  }

  /** record.status === w ? 1 : 0 */
  function Tick(st: Status, w: Status): nat
  {
    if st == w then 1 else 0
  }

  /** existing.served += …; existing.skipped += …; existing.canceled += … */
  function Bump(t: Trend, st: Status): (u: Trend)
    ensures u.date == t.date
    ensures forall w :: Field(u, w) == Field(t, w) + Tick(st, w)
  {
    Trend(t.date, t.served + Tick(st, Served), t.skipped + Tick(st, Skipped), t.canceled + Tick(st, Canceled))
  }

  /** The row acc.push adds for a new date. */
  function NewTrend(date: string, st: Status): (u: Trend)
    ensures u.date == date
    ensures forall w :: Field(u, w) == Tick(st, w)
  {
    Trend(date, Tick(st, Served), Tick(st, Skipped), Tick(st, Canceled))
  }

  /** acc.find(item => item.date === date), as an index. */
  function IndexOfDate(acc: seq<Trend>, date: string): (r: Option<nat>)
    ensures r.Some? ==> r.value < |acc| && acc[r.value].date == date
    ensures r.Some? ==> forall j :: 0 <= j < r.value ==> acc[j].date != date
    ensures r.None? ==> forall j :: 0 <= j < |acc| ==> acc[j].date != date
  {
    if acc == [] then None
    else if acc[0].date == date then Some(0)
    else
      match IndexOfDate(acc[1..], date)
      case None => None
      case Some(j) => Some(j + 1)
  }

  /** The step of the reduce for one record with the given date label and status. */
  function AddRecord(acc: seq<Trend>, date: string, st: Status): seq<Trend>
  {
    match IndexOfDate(acc, date)
    case None => acc + [NewTrend(date, st)]
    case Some(j) => acc[j := Bump(acc[j], st)]
  }

  /** The trend table after the reduce has seen the records rs. The date
      label format(parseISO(joinedAt), 'MMM dd') is the `dayLabel` parameter. */
  function Trends(rs: seq<AnalyticsRecord>, dayLabel: int -> string): seq<Trend>
  {
    if rs == [] then []
    else
      var r := rs[|rs| - 1];
      AddRecord(Trends(rs[..|rs| - 1], dayLabel), dayLabel(r.joinedAt), r.status)
  }

  /** dailyTrends: the reduce, with its accumulator's rows updated in place. */
  method DailyTrends(rs: seq<AnalyticsRecord>, dayLabel: int -> string) returns (acc: seq<Trend>)
    ensures acc == Trends(rs, dayLabel)
    ensures Dates(acc) == Dedup(Labels(rs, dayLabel))
    ensures forall d, w :: TrendOf(acc, d, w) == CountDated(rs, dayLabel, d, w)
    ensures forall w :: SumField(acc, w) == StatusCount(rs, w)
  {
    acc := [];
    for i := 0 to |rs|
      invariant acc == Trends(rs[..i], dayLabel)
    {
      var record := rs[i];
      var date := dayLabel(record.joinedAt);
      assert rs[..i + 1][..i] == rs[..i];
      var existing := IndexOfDate(acc, date);
      if existing.Some? {
        var j := existing.value;
        acc := acc[j := Bump(acc[j], record.status)];
      } else {
        acc := acc + [NewTrend(date, record.status)];
      }
    }
    assert rs[..|rs|] == rs;
    TrendsDates(rs, dayLabel);
    forall d, w
      ensures TrendOf(acc, d, w) == CountDated(rs, dayLabel, d, w)
    {
      TrendsCount(rs, dayLabel, d, w);
    }
    forall w
      ensures SumField(acc, w) == StatusCount(rs, w)
    {
      TrendsSum(rs, dayLabel, w);
    }
  }

  /** The dates of the rows, in row order. */
  function Dates(acc: seq<Trend>): (r: seq<string>)
    ensures |r| == |acc|
    ensures forall k :: 0 <= k < |acc| ==> r[k] == acc[k].date
  {
    if acc == [] then [] else Dates(acc[..|acc| - 1]) + [acc[|acc| - 1].date]
  }

  /** The dayLabel of every record, in record order. */
  function Labels(rs: seq<AnalyticsRecord>, dayLabel: int -> string): seq<string>
  {
    if rs == [] then [] else Labels(rs[..|rs| - 1], dayLabel) + [dayLabel(rs[|rs| - 1].joinedAt)]
  }

  /** The index of the first occurrence of x in s. */
  function FirstIndex(s: seq<string>, x: string): (k: nat)
    requires x in s
    ensures k < |s| && s[k] == x
    ensures forall i :: 0 <= i < k ==> s[i] != x
  {
    if s[0] == x then 0 else 1 + FirstIndex(s[1..], x)
  }

  /** Appending never moves the first occurrence of an element already
      present, and puts that of a new element after all the old ones. */
  lemma FirstIndexAppend(a: seq<string>, y: string, x: string)
    requires x in a + [y]
    ensures x in a ==> FirstIndex(a + [y], x) == FirstIndex(a, x)
    ensures x !in a ==> FirstIndex(a + [y], x) == |a|
  {
    var m := FirstIndex(a + [y], x);
    if x in a {
      var k := FirstIndex(a, x);
      assert (a + [y])[k] == x;
      assert m < |a| ==> a[m] == x;
    } else {
      assert m >= |a| by {
        assert forall i :: 0 <= i < |a| ==> (a + [y])[i] == a[i];
      }
    }
  }

  /** The distinct elements of s in order of first appearance. */
  function Dedup(s: seq<string>): (r: seq<string>)
    ensures forall x :: x in r <==> x in s
    ensures forall i, j :: 0 <= i < j < |r| ==> r[i] != r[j]
    ensures forall i, j :: 0 <= i < j < |r| ==> FirstIndex(s, r[i]) < FirstIndex(s, r[j])
  {
    if s == [] then []
    else
      var init, x := s[..|s| - 1], s[|s| - 1];
      assert s == init + [x];
      var d := Dedup(init);
      forall y | y in init
        ensures FirstIndex(s, y) == FirstIndex(init, y) < |init|
      {
        FirstIndexAppend(init, x, y);
      }
      if x in d then d
      else
        FirstIndexAppend(init, x, x);
        d + [x]
  }

  /** The counter for status w of the row for date d; 0 without a row. */
  function TrendOf(acc: seq<Trend>, d: string, w: Status): nat
  {
    match IndexOfDate(acc, d)
    case None => 0
    case Some(j) => Field(acc[j], w)
  }

  function DatedWith(dayLabel: int -> string, d: string, w: Status): AnalyticsRecord -> bool
  {
    (r: AnalyticsRecord) => dayLabel(r.joinedAt) == d && r.status == w
  }

  /** The number of records with date dayLabel d and status w. */
  function CountDated(rs: seq<AnalyticsRecord>, dayLabel: int -> string, d: string, w: Status): nat
  {
    |Filter(rs, DatedWith(dayLabel, d, w))|
  }

  /** The sum of one counter over all rows. */
  function SumField(acc: seq<Trend>, w: Status): nat
  {
    if acc == [] then 0 else SumField(acc[..|acc| - 1], w) + Field(acc[|acc| - 1], w)
  }

  lemma IndexOfDateSameDates(a: seq<Trend>, b: seq<Trend>, d: string)
    requires |a| == |b|
    requires forall k :: 0 <= k < |a| ==> a[k].date == b[k].date
    ensures IndexOfDate(a, d) == IndexOfDate(b, d)
  {
  }

  lemma IndexOfDateAppend(acc: seq<Trend>, t: Trend, d: string)
    ensures IndexOfDate(acc + [t], d) ==
      if IndexOfDate(acc, d).Some? then IndexOfDate(acc, d)
      else if t.date == d then Some(|acc|)
      else None
  {
    assert forall k :: 0 <= k < |acc| ==> (acc + [t])[k] == acc[k];
    if IndexOfDate(acc, d).None? && t.date == d {
      assert (acc + [t])[|acc|].date == d;
    }
  }

  lemma DatesMember(acc: seq<Trend>, d: string)
    ensures IndexOfDate(acc, d).Some? <==> d in Dates(acc)
  {
    if d in Dates(acc) {
      var k :| 0 <= k < |acc| && Dates(acc)[k] == d;
      assert acc[k].date == d;
    }
  }

  /** One step keeps the row dates, or appends the new date. */
  lemma AddRecordDates(acc: seq<Trend>, d: string, st: Status)
    ensures Dates(AddRecord(acc, d, st)) == if d in Dates(acc) then Dates(acc) else Dates(acc) + [d]
  {
    DatesMember(acc, d);
    match IndexOfDate(acc, d)
    case None =>
      assert Dates(acc + [NewTrend(d, st)])[..|acc|] == Dates(acc);
    case Some(j) =>
      var u := acc[j := Bump(acc[j], st)];
      assert |Dates(u)| == |Dates(acc)|;
      assert forall k :: 0 <= k < |u| ==> Dates(u)[k] == Dates(acc)[k];
  }

  /** The rows hold the distinct date labels in order of first appearance. */
  lemma {:induction false} TrendsDates(rs: seq<AnalyticsRecord>, dayLabel: int -> string)
    ensures Dates(Trends(rs, dayLabel)) == Dedup(Labels(rs, dayLabel))
  {
    if rs != [] {
      var init, r := rs[..|rs| - 1], rs[|rs| - 1];
      TrendsDates(init, dayLabel);
      AddRecordDates(Trends(init, dayLabel), dayLabel(r.joinedAt), r.status);
      assert Labels(rs, dayLabel)[..|Labels(rs, dayLabel)| - 1] == Labels(init, dayLabel);
    }
  }

  /** One step adds the record's tick to its own date's counter only. */
  lemma AddRecordTrendOf(acc: seq<Trend>, e: string, st: Status, d: string, w: Status)
    ensures TrendOf(AddRecord(acc, e, st), d, w) == TrendOf(acc, d, w) + (if d == e then Tick(st, w) else 0)
  {
    match IndexOfDate(acc, e)
    case None =>
      IndexOfDateAppend(acc, NewTrend(e, st), d);
    case Some(j) =>
      IndexOfDateSameDates(acc[j := Bump(acc[j], st)], acc, d);
  }

  lemma CountDatedSnoc(rs: seq<AnalyticsRecord>, r: AnalyticsRecord, dayLabel: int -> string, d: string, w: Status)
    ensures CountDated(rs + [r], dayLabel, d, w) ==
      CountDated(rs, dayLabel, d, w) + (if dayLabel(r.joinedAt) == d && r.status == w then 1 else 0)
  {
    assert (rs + [r])[..|rs|] == rs;
  }

  /** Each row's counter for a status equals the number of records with
      that row's date dayLabel and that status; a dayLabel without a row has no
      records at all. */
  lemma {:induction false} TrendsCount(rs: seq<AnalyticsRecord>, dayLabel: int -> string, d: string, w: Status)
    ensures TrendOf(Trends(rs, dayLabel), d, w) == CountDated(rs, dayLabel, d, w)
  {
    if rs != [] {
      var init, r := rs[..|rs| - 1], rs[|rs| - 1];
      TrendsCount(init, dayLabel, d, w);
      AddRecordTrendOf(Trends(init, dayLabel), dayLabel(r.joinedAt), r.status, d, w);
      assert rs == init + [r];
      CountDatedSnoc(init, r, dayLabel, d, w);
    }
  }

  lemma {:induction false} SumFieldUpdate(acc: seq<Trend>, j: nat, t: Trend, w: Status)
    requires j < |acc|
    ensures SumField(acc[j := t], w) == SumField(acc, w) - Field(acc[j], w) + Field(t, w)
  {
    var n := |acc|;
    if j < n - 1 {
      assert acc[j := t][..n - 1] == acc[..n - 1][j := t];
      SumFieldUpdate(acc[..n - 1], j, t, w);
    } else {
      assert acc[j := t][..n - 1] == acc[..n - 1];
    }
  }

  lemma AddRecordSum(acc: seq<Trend>, e: string, st: Status, w: Status)
    ensures SumField(AddRecord(acc, e, st), w) == SumField(acc, w) + Tick(st, w)
  {
    match IndexOfDate(acc, e)
    case None =>
      assert (acc + [NewTrend(e, st)])[..|acc|] == acc;
    case Some(j) =>
      SumFieldUpdate(acc, j, Bump(acc[j], st), w);
  }

  /** Summed over the rows, each counter equals the overall count of its
      status. */
  lemma {:induction false} TrendsSum(rs: seq<AnalyticsRecord>, dayLabel: int -> string, w: Status)
    ensures SumField(Trends(rs, dayLabel), w) == StatusCount(rs, w)
  {
    if rs != [] {
      var init, r := rs[..|rs| - 1], rs[|rs| - 1];
      TrendsSum(init, dayLabel, w);
      AddRecordSum(Trends(init, dayLabel), dayLabel(r.joinedAt), r.status, w);
      assert rs == init + [r];
      StatusCountSnoc(init, r, w);
    }
  }

  // ---------------------------------------------------------------------
  // doctorStats

  datatype DoctorStat = DoctorStat(name: string, served: nat, skipped: nat, canceled: nat, currentQueue: nat)

  function StatField(s: DoctorStat, w: Status): nat
  {
    match w
    case Served => s.served
    case Skipped => s.skipped
    case Canceled => s.canceled
  }

  function ForDoctor(id: string): AnalyticsRecord -> bool
  {
    (r: AnalyticsRecord) => r.doctorId == id
  }

  function ForDoctorWith(id: string, w: Status): AnalyticsRecord -> bool
  {
    (r: AnalyticsRecord) => r.doctorId == id && r.status == w
  }

  /** The number of records of doctor id with status w. */
  function DoctorCount(rs: seq<AnalyticsRecord>, id: string, w: Status): nat
  {
    |Filter(rs, ForDoctorWith(id, w))|
  }

  /** Filtering by doctor, then by status, counts the records of that
      doctor with that status. */
  lemma {:induction false} FilterTwice(rs: seq<AnalyticsRecord>, id: string, w: Status)
    ensures StatusCount(Filter(rs, ForDoctor(id)), w) == DoctorCount(rs, id, w)
  {
    if rs != [] {
      var init, r := rs[..|rs| - 1], rs[|rs| - 1];
      FilterTwice(init, id, w);
      var mine := Filter(init, ForDoctor(id));
      if r.doctorId == id {
        assert Filter(rs, ForDoctor(id)) == mine + [r];
        FilterAppend(mine, [r], HasStatus(w));
        assert [r][..0] == [];
        assert |Filter([r], HasStatus(w))| == (if r.status == w then 1 else 0);
      } else {
        assert Filter(rs, ForDoctor(id)) == mine;
      }
    }
  }

  /** One row of doctorStats: the doctor's name, the counts of that
      doctor's records by status, and the doctor's current queue size. */
  function StatFor(d: Doctor, rs: seq<AnalyticsRecord>, sizes: seq<SizeEntry>): (s: DoctorStat)
    ensures s.name == d.name
    ensures forall w :: StatField(s, w) == DoctorCount(rs, d.id, w)
    ensures s.currentQueue == SizeOf(sizes, d.id)
  {
    var mine := Filter(rs, ForDoctor(d.id));
    FilterTwice(rs, d.id, Served);
    FilterTwice(rs, d.id, Skipped);
    FilterTwice(rs, d.id, Canceled);
    DoctorStat(d.name, StatusCount(mine, Served), StatusCount(mine, Skipped), StatusCount(mine, Canceled),
               SizeOf(sizes, d.id))
  }

  /** doctorStats: one row per doctor, in order, with the doctor's name, the
      counts of that doctor's records by status, and the doctor's current
      queue size, which is 0 when the dictionary has no key for the doctor. */
  function DoctorStats(docs: seq<Doctor>, rs: seq<AnalyticsRecord>, sizes: seq<SizeEntry>): (r: seq<DoctorStat>)
    ensures |r| == |docs|
    ensures forall k :: 0 <= k < |docs| ==> r[k] == StatFor(docs[k], rs, sizes)
    ensures forall k :: 0 <= k < |docs| && IndexOfKey(sizes, docs[k].id).None? ==> r[k].currentQueue == 0
  {
    if docs == [] then []
    else DoctorStats(docs[..|docs| - 1], rs, sizes) + [StatFor(docs[|docs| - 1], rs, sizes)]
  }

  /** The sum of one column of the doctor table. */
  function SumStat(stats: seq<DoctorStat>, w: Status): nat
  {
    if stats == [] then 0 else SumStat(stats[..|stats| - 1], w) + StatField(stats[|stats| - 1], w)
  }

  predicate DistinctIds(docs: seq<Doctor>)
  {
    forall i, j :: 0 <= i < j < |docs| ==> docs[i].id != docs[j].id
  }

  /** The number of doctors with the given id. */
  function Hits(docs: seq<Doctor>, id: string): nat
  {
    if docs == [] then 0 else Hits(docs[..|docs| - 1], id) + (if docs[|docs| - 1].id == id then 1 else 0)
  }

  lemma {:induction false} HitsDistinct(docs: seq<Doctor>, id: string)
    requires DistinctIds(docs)
    ensures Hits(docs, id) == if Listed(docs, id) then 1 else 0
  {
    if docs != [] {
      var init := docs[..|docs| - 1];
      HitsDistinct(init, id);
      if docs[|docs| - 1].id == id {
        assert forall k :: 0 <= k < |init| ==> init[k].id != id by {
          forall k | 0 <= k < |init| ensures init[k].id != id { assert init[k] == docs[k]; }
        }
      } else {
        if exists k :: 0 <= k < |docs| && docs[k].id == id {
          var k :| 0 <= k < |docs| && docs[k].id == id;
          assert init[k] == docs[k];
        }
        if exists k :: 0 <= k < |init| && init[k].id == id {
          var k :| 0 <= k < |init| && init[k].id == id;
          assert docs[k] == init[k];
        }
      }
    }
  }

  /** Adding one record adds its status tick once per doctor sharing its id. */
  lemma {:induction false} SumStatSnoc(docs: seq<Doctor>, rs: seq<AnalyticsRecord>, r: AnalyticsRecord,
                                       sizes: seq<SizeEntry>, w: Status)
    ensures SumStat(DoctorStats(docs, rs + [r], sizes), w) ==
      SumStat(DoctorStats(docs, rs, sizes), w) + (if r.status == w then Hits(docs, r.doctorId) else 0)
  {
    if docs != [] {
      var init, d := docs[..|docs| - 1], docs[|docs| - 1];
      var before, after := DoctorStats(init, rs, sizes), DoctorStats(init, rs + [r], sizes);
      assert (before + [StatFor(d, rs, sizes)])[..|before|] == before;
      assert (after + [StatFor(d, rs + [r], sizes)])[..|after|] == after;
      SumStatSnoc(init, rs, r, sizes, w);
      DoctorCountSnoc(rs, r, d.id, w);
    }
  }

  /** One more record adds one to the count of its own doctor and status. */
  lemma DoctorCountSnoc(rs: seq<AnalyticsRecord>, r: AnalyticsRecord, id: string, w: Status)
    ensures DoctorCount(rs + [r], id, w) == DoctorCount(rs, id, w) + (if r.doctorId == id && r.status == w then 1 else 0)
  {
    assert (rs + [r])[..|rs|] == rs;
  }

  lemma StatusCountSnoc(rs: seq<AnalyticsRecord>, r: AnalyticsRecord, w: Status)
    ensures StatusCount(rs + [r], w) == StatusCount(rs, w) + (if r.status == w then 1 else 0)
  {
    assert (rs + [r])[..|rs|] == rs;
  }

  predicate Listed(docs: seq<Doctor>, id: string)
  {
    exists k :: 0 <= k < |docs| && docs[k].id == id
  }

  /** When the table lists each doctor once and every record belongs to a
      listed doctor, the table's columns add up to the overall status
      counts. */
  lemma {:induction false} DoctorStatsTotals(docs: seq<Doctor>, rs: seq<AnalyticsRecord>, sizes: seq<SizeEntry>, w: Status)
    requires DistinctIds(docs)
    requires forall i :: 0 <= i < |rs| ==> Listed(docs, rs[i].doctorId)
    ensures SumStat(DoctorStats(docs, rs, sizes), w) == StatusCount(rs, w)
  {
    if rs == [] {
      DoctorStatsEmpty(docs, sizes, w);
    } else {
      var init, r := rs[..|rs| - 1], rs[|rs| - 1];
      assert rs == init + [r];
      assert Listed(docs, r.doctorId);
      forall i | 0 <= i < |init| ensures Listed(docs, init[i].doctorId) {
        assert init[i] == rs[i];
      }
      var tick := if r.status == w then 1 else 0;
      calc {
        SumStat(DoctorStats(docs, rs, sizes), w);
        { SumStatSnoc(docs, init, r, sizes, w); }
        SumStat(DoctorStats(docs, init, sizes), w) + (if r.status == w then Hits(docs, r.doctorId) else 0);
        { HitsDistinct(docs, r.doctorId); }
        SumStat(DoctorStats(docs, init, sizes), w) + tick;
        { DoctorStatsTotals(docs, init, sizes, w); }
        StatusCount(init, w) + tick;
        { StatusCountSnoc(init, r, w); }
        StatusCount(rs, w);
      }
    }
  }

  lemma {:induction false} DoctorStatsEmpty(docs: seq<Doctor>, sizes: seq<SizeEntry>, w: Status)
    ensures SumStat(DoctorStats(docs, [], sizes), w) == 0
  {
    if docs != [] {
      DoctorStatsEmpty(docs[..|docs| - 1], sizes, w);
    }
  }

  // ---------------------------------------------------------------------
  // statusDistribution

  /** statusDistribution: the three slices in the order Served, Skipped,
      Canceled, valued by the status counts; the slices add up to the
      number of records and agree with the summary cards. */
  function StatusDistribution(rs: seq<AnalyticsRecord>): (r: seq<(string, nat)>)
    ensures |r| == 3
    ensures r[0] == ("Served", StatusCount(rs, Served))
    ensures r[1] == ("Skipped", StatusCount(rs, Skipped))
    ensures r[2] == ("Canceled", StatusCount(rs, Canceled))
    ensures r[0].1 + r[1].1 + r[2].1 == |rs|
    ensures r[0].1 == TotalPatientsToday(rs) && r[1].1 + r[2].1 == TotalSkippedCanceled(rs)
  {
    StatusCountsPartition(rs);
    [("Served", StatusCount(rs, Served)), ("Skipped", StatusCount(rs, Skipped)), ("Canceled", StatusCount(rs, Canceled))]
  }
}
