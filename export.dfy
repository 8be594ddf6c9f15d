/** The export helpers (src/utils/exportUtils.ts): the text of the CSV file
    and the three numbers of the PDF summary table. Turning an instant into
    its ISO string (the analytics records store ISO strings) is the `iso`
    parameter. */
module ExportUtils {
  import opened Common
  import opened AnalyticsHook
  import AnalyticsView

  // ---------------------------------------------------------------------
  // Numbers as text

  function DigitChar(d: nat): char
    requires d < 10
  {
    "0123456789"[d]
  }

  predicate IsDigit(c: char)
  {
    '0' <= c <= '9'
  }

  function DigitValue(c: char): nat
    requires IsDigit(c)
  {
    (c - '0') as nat
  }

  /** The decimal digits of n, most significant first, with no leading zero. */
  function NatToString(n: nat): (s: string)
    ensures |s| > 0
    ensures forall i :: 0 <= i < |s| ==> IsDigit(s[i])
    ensures |s| > 1 ==> s[0] != '0'
    decreases n
  {
    if n < 10 then [DigitChar(n)] else NatToString(n / 10) + [DigitChar(n % 10)]
  }

  /** The number a digit string denotes. */
  function ParseDigits(s: string): nat
    requires forall i :: 0 <= i < |s| ==> IsDigit(s[i])
  {
    if s == [] then 0 else ParseDigits(s[..|s| - 1]) * 10 + DigitValue(s[|s| - 1])
  }

  /** Reading back the printed digits gives the number. */
  lemma {:induction false} ParsePrinted(n: nat)
    ensures ParseDigits(NatToString(n)) == n
    decreases n
  {
    if n >= 10 {
      ParsePrinted(n / 10);
      var s := NatToString(n);
      assert s[..|s| - 1] == NatToString(n / 10);
    }
  }

  /** Number.prototype.toString for an integer. */
  function IntToString(n: int): (s: string)
    ensures |s| > 0
    ensures n >= 0 ==> s == NatToString(n)
    ensures n < 0 ==> s == "-" + NatToString(-n)
  {
    if n < 0 then "-" + NatToString(-n) else NatToString(n)
  }

  /** An integer's text never contains a comma, a quote or a line break. */
  lemma IntToStringIsPlain(n: int)
    ensures forall i :: 0 <= i < |IntToString(n)| ==> IntToString(n)[i] !in {',', '"', '\n'}
  {
    var s := IntToString(n);
    if n < 0 {
      assert forall i :: 1 <= i < |s| ==> s[i] == NatToString(-n)[i - 1];
    }
  }

  // ---------------------------------------------------------------------
  // CSV

  /** parts.join(sep) */
  function Join(parts: seq<string>, sep: string): string
  {
    if parts == [] then ""
    else if |parts| == 1 then parts[0]
    else Join(parts[..|parts| - 1], sep) + sep + parts[|parts| - 1]
  }

  /** The number of occurrences of c in s. */
  function Occurrences(s: string, c: char): nat
  {
    if s == [] then 0 else Occurrences(s[..|s| - 1], c) + (if s[|s| - 1] == c then 1 else 0)
  }

  lemma {:induction false} OccurrencesAppend(a: string, b: string, c: char)
    ensures Occurrences(a + b, c) == Occurrences(a, c) + Occurrences(b, c)
  {
    if b == [] {
      assert a + b == a;
    } else {
      assert (a + b)[..|a + b| - 1] == a + b[..|b| - 1];
      OccurrencesAppend(a, b[..|b| - 1], c);
    }
  }

  /** Joining n parts that do not contain c with the one-character
      separator c puts exactly n - 1 copies of c in the text, so splitting
      the text at c gives the parts back one by one. */
  lemma {:induction false} JoinCountsSeparators(parts: seq<string>, c: char)
    requires |parts| > 0
    requires forall k :: 0 <= k < |parts| ==> Occurrences(parts[k], c) == 0
    ensures Occurrences(Join(parts, [c]), c) == |parts| - 1
  {
    if |parts| > 1 {
      var init := parts[..|parts| - 1];
      JoinCountsSeparators(init, c);
      OccurrencesAppend(Join(init, [c]), [c], c);
      OccurrencesAppend(Join(init, [c]) + [c], parts[|parts| - 1], c);
      assert Occurrences([c], c) == Occurrences([], c) + 1;
    }
  }

  const Headers: seq<string> := ["Patient Name", "Doctor ID", "Status", "Wait Time (minutes)", "Joined At", "Served At"]

  function StatusText(st: Status): string
  {
    match st
    case Served => "served"
    case Skipped => "skipped"
    case Canceled => "canceled"
  }

  /** The six fields of one record's line: the name between double quotes,
      with no escaping; the doctor id; the status; the wait time, empty when
      it is missing or 0 (both falsy); the join time; the serving time,
      empty when missing. */
  function Fields(r: AnalyticsRecord, iso: int -> string): (f: seq<string>)
    ensures |f| == |Headers|
    ensures f[0] == "\"" + r.patientName + "\""
    ensures f[1] == r.doctorId && f[2] == StatusText(r.status) && f[4] == iso(r.joinedAt)
    ensures f[3] == "" <==> r.waitTimeMinutes.None? || r.waitTimeMinutes == Some(0)
    ensures r.waitTimeMinutes.Some? && r.waitTimeMinutes != Some(0) ==> f[3] == IntToString(r.waitTimeMinutes.value)
    ensures f[5] == "" <==> r.servedAt.None? || iso(r.servedAt.value) == ""
    ensures r.servedAt.Some? ==> f[5] == iso(r.servedAt.value)
  {
    var wait := if r.waitTimeMinutes.Some? && r.waitTimeMinutes.value != 0 then IntToString(r.waitTimeMinutes.value) else "";
    var served := if r.servedAt.Some? then iso(r.servedAt.value) else "";
    ["\"" + r.patientName + "\"", r.doctorId, StatusText(r.status), wait, iso(r.joinedAt), served]
  }

  function Row(r: AnalyticsRecord, iso: int -> string): string
  {
    Join(Fields(r, iso), ",")
  }

  /** The header line followed by one line per record, in record order. */
  function Lines(rs: seq<AnalyticsRecord>, iso: int -> string): (ls: seq<string>)
    ensures |ls| == |rs| + 1
    ensures ls[0] == Join(Headers, ",")
    ensures forall k :: 0 <= k < |rs| ==> ls[k + 1] == Row(rs[k], iso)
  {
    if rs == [] then [Join(Headers, ",")] else Lines(rs[..|rs| - 1], iso) + [Row(rs[|rs| - 1], iso)]
  }

  /** csvContent: the lines joined by '\n', with no trailing newline. */
  function CsvContent(rs: seq<AnalyticsRecord>, iso: int -> string): string
  {
    Join(Lines(rs, iso), "\n")
  }

  /** Joining a first part with the rest: the text starts with that part. */
  lemma {:induction false} JoinStartsWithFirst(parts: seq<string>, sep: string)
    requires |parts| > 0
    ensures |parts[0]| <= |Join(parts, sep)| && Join(parts, sep)[..|parts[0]|] == parts[0]
  {
    if |parts| > 1 {
      JoinStartsWithFirst(parts[..|parts| - 1], sep);
      var j := Join(parts[..|parts| - 1], sep);
      assert (j + sep + parts[|parts| - 1])[..|parts[0]|] == j[..|parts[0]|];
    }
  }

  /** The CSV text begins with the six header names joined by commas. */
  lemma CsvStartsWithHeader(rs: seq<AnalyticsRecord>, iso: int -> string)
    ensures var h := Join(Headers, ",");
      |h| <= |CsvContent(rs, iso)| && CsvContent(rs, iso)[..|h|] == h
  {
    JoinStartsWithFirst(Lines(rs, iso), "\n");
  }

  lemma {:induction false} JoinNoChar(parts: seq<string>, sep: string, c: char)
    requires Occurrences(sep, c) == 0
    requires forall k :: 0 <= k < |parts| ==> Occurrences(parts[k], c) == 0
    ensures Occurrences(Join(parts, sep), c) == 0
  {
    if |parts| > 1 {
      var init := parts[..|parts| - 1];
      JoinNoChar(init, sep, c);
      OccurrencesAppend(Join(init, sep), sep, c);
      OccurrencesAppend(Join(init, sep) + sep, parts[|parts| - 1], c);
    }
  }

  /** A line of a record whose name, doctor id and timestamps contain no
      line break has no line break. */
  lemma RowHasNoNewline(r: AnalyticsRecord, iso: int -> string)
    requires Occurrences(r.patientName, '\n') == 0 && Occurrences(r.doctorId, '\n') == 0
    requires Occurrences(iso(r.joinedAt), '\n') == 0
    requires r.servedAt.Some? ==> Occurrences(iso(r.servedAt.value), '\n') == 0
    ensures Occurrences(Row(r, iso), '\n') == 0
  {
    var f := Fields(r, iso);
    OccurrencesAppend("\"" + r.patientName, "\"", '\n');
    OccurrencesAppend("\"", r.patientName, '\n');
    NoCharWhenAbsent("\"", '\n');
    NoCharWhenAbsent(",", '\n');
    NoCharWhenAbsent(StatusText(r.status), '\n');
    NoCharWhenAbsent("", '\n');
    if r.waitTimeMinutes.Some? && r.waitTimeMinutes.value != 0 {
      IntToStringIsPlain(r.waitTimeMinutes.value);
      NoCharWhenAbsent(IntToString(r.waitTimeMinutes.value), '\n');
    }
    JoinNoChar(f, ",", '\n');
  }

  /** With no line break inside any field, the CSV text has exactly one
      line break per record: a header line and one line per record, no
      trailing newline. */
  lemma CsvLineCount(rs: seq<AnalyticsRecord>, iso: int -> string)
    requires forall k :: 0 <= k < |rs| ==>
      Occurrences(rs[k].patientName, '\n') == 0 && Occurrences(rs[k].doctorId, '\n') == 0
    requires forall t :: Occurrences(iso(t), '\n') == 0
    ensures Occurrences(CsvContent(rs, iso), '\n') == |rs|
  {
    var ls := Lines(rs, iso);
    forall k | 0 <= k < |ls|
      ensures Occurrences(ls[k], '\n') == 0
    {
      if k == 0 {
        NoCharWhenAbsent(",", '\n');
        forall h | 0 <= h < |Headers| ensures Occurrences(Headers[h], '\n') == 0 {
          HeaderHasNoNewline(h);
        }
        JoinNoChar(Headers, ",", '\n');
      } else {
        var r := rs[k - 1];
        assert Occurrences(iso(r.joinedAt), '\n') == 0;
        if r.servedAt.Some? {
          var t: int := r.servedAt.value;
          assert Occurrences(iso(t), '\n') == 0;
        }
        RowHasNoNewline(r, iso);
      }
    }
    JoinCountsSeparators(ls, '\n');
  }

  lemma HeaderHasNoNewline(h: nat)
    requires h < |Headers|
    ensures Occurrences(Headers[h], '\n') == 0
  {
    var s := Headers[h];
    NoCharWhenAbsent(s, '\n');
  }

  lemma {:induction false} NoCharWhenAbsent(s: string, c: char)
    requires forall i :: 0 <= i < |s| ==> s[i] != c
    ensures Occurrences(s, c) == 0
  {
    if s != [] {
      NoCharWhenAbsent(s[..|s| - 1], c);
    }
  }

  // ---------------------------------------------------------------------
  // PDF summary table

  /** analytics.filter(r => r.status !== 'served').length */
  function NotServedCount(rs: seq<AnalyticsRecord>): nat
  {
    |Filter(rs, (r: AnalyticsRecord) => r.status != Served)|
  }

  /** The average row: Math.round(sum / length || 0). For no records the
      quotient 0 / 0 is NaN, which `|| 0` turns into 0. */
  function PdfAverage(rs: seq<AnalyticsRecord>): int
  {
    if |rs| == 0 then 0 else RoundDiv(AnalyticsView.SumWaits(rs), |rs|)
  }

  /** The three summary rows: served, not served, average wait. The first
      two add up to the number of records and agree with the dashboard's
      cards (the dashboard counts "skipped or canceled", the PDF counts
      "not served", which coincide as there are three statuses), and the
      average agrees with the dashboard's average. */
  function PdfSummary(rs: seq<AnalyticsRecord>): (s: (nat, nat, int))
    ensures s.0 + s.1 == |rs|
    ensures s.0 == AnalyticsView.TotalPatientsToday(rs)
    ensures s.1 == AnalyticsView.TotalSkippedCanceled(rs)
    ensures s.2 == AnalyticsView.AverageWaitTime(rs)
    ensures rs == [] ==> s.2 == 0
  {
    NotServedIsSkippedOrCanceled(rs);
    AnalyticsView.SummaryCoversAll(rs);
    AnalyticsView.SumWaitsIsSum(rs);
    (|Filter(rs, AnalyticsView.HasStatus(Served))|, NotServedCount(rs), PdfAverage(rs))
  }

  lemma {:induction false} NotServedIsSkippedOrCanceled(rs: seq<AnalyticsRecord>)
    ensures NotServedCount(rs) == AnalyticsView.TotalSkippedCanceled(rs)
  {
    if rs != [] {
      NotServedIsSkippedOrCanceled(rs[..|rs| - 1]);
    }
  }
}
