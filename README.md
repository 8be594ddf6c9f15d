# Walk-in clinic queue: a Dafny model

This project models the core of a walk-in clinic queue web application. Patients join a doctor's queue from a form. Staff serve, skip or remove them, and reorder the waiting list by drag and drop. A daily reset archives the patients still waiting as canceled visits and empties the queues. An analytics dashboard and its CSV/PDF exports summarise the visits.

Each core source file is one Dafny module:

| module | file | form |
|---|---|---|
| `Common` | (shared) | `Option`; `Math.round` of a quotient; `Array.prototype.filter`/`find`; sum, min, max |
| `Types` | src/types/index.ts | the `Patient` and `Doctor` documents |
| `QueueHook` | src/hooks/useQueue.ts | class `QueueStore` (the `queue`, `served` and `analytics` collections) |
| `AnalyticsHook` | src/hooks/useAnalytics.ts | class `AnalyticsStore` (the analytics collections), class `AnalyticsState` (the hook's state), functions |
| `DailyReset` | src/hooks/useDailyReset.ts | class `ResetScheduler` (the `patients` and `doctors` collections, the last-reset marker) |
| `DoctorQueueCard` | src/components/DoctorQueueCard.tsx | functions |
| `AnalyticsView` | src/components/Analytics.tsx | functions; one method for the `reduce` loop |
| `PhoneValidation` | src/utils/phoneValidation.ts | functions |
| `ExportUtils` | src/utils/exportUtils.ts | functions |
| `PatientForm` | src/components/PatientForm.tsx | class `FormState` (the component's state and the saved code) |

Conventions:
- Firestore collections are in-memory sequences or maps. A write batch is one atomic step whose commit succeeds or throws, as a boolean parameter says.
- Timestamps are integer milliseconds. `serverTimestamp()` and `new Date()` are a `now` parameter.
- Date strings such as `format(d, 'yyyy-MM-dd')`, `toISOString()` and `format(d, 'MMM dd')` are function parameters of type `int -> string`. The exception is useQueue's UTC day key, `UtcDay`, which is the day number.
- `Math.round(a / b)` with `b > 0` is `(2a + b) / (2b)` in floor division (`Common.RoundDiv`). This equals JavaScript's `floor(x + 0.5)` exactly.
- `confirm()` answers and `localStorage` items are parameters and fields.

## Model

| member | source | states |
|---|---|---|
| Common.RoundDiv | src/hooks/useQueue.ts:209 | `Math.round(a / b)`: the result r satisfies 2br <= 2a + b < 2b(r + 1), i.e. it is the nearest integer, halves rounding up |
| Common.RoundDivBetween | src/hooks/useQueue.ts:216 | a rounded quotient that lies between lo and hi when a/b does stays between them |
| Common.MeanBetweenMinMax | src/hooks/useQueue.ts:216-218 | the rounded mean of a non-empty list lies between its minimum and its maximum |
| Common.Filter | src/hooks/useQueue.ts:200-202 | `Array.prototype.filter`: every kept element is from the list and passes, and every passing element is kept |
| Common.FilterAppend | src/components/PatientForm.tsx:22 | filtering distributes over concatenation, so relative order is kept |
| Common.FilterRemovesOne | src/hooks/useQueue.ts:94-95 | a filter that rejects exactly the element at index i gives the list with just that element removed |
| Common.Find | src/components/PatientForm.tsx:28 | `Array.prototype.find`: the first index whose element passes, or None exactly when no element passes |
| Common.Min | src/hooks/useQueue.ts:217 | `Math.min(...w)`: a member of w that is at most every member |
| Common.Max | src/hooks/useQueue.ts:218 | `Math.max(...w)`: a member of w that is at least every member |
| Common.InsertDesc | src/hooks/useAnalytics.ts:108 | inserting into a list ordered by a key, largest first, keeps it ordered, adds exactly that element, and keeps every lower bound the list and the element share |
| Common.SortDesc | src/hooks/useAnalytics.ts:82 | a sort by a key, largest first: the result is ordered by the key and is a permutation of its input |
| QueueHook.QueueStore.constructor | src/hooks/useQueue.ts:20-21 | empty `queue` and `served` collections over the statistics documents that already exist; the store invariant holds |
| QueueHook.FindById | src/hooks/useQueue.ts:80-81 | the index of the first queue entry with the id; None exactly when no entry has it |
| QueueHook.QueueStore.AddPatient | src/hooks/useQueue.ts:64-76 | a committed add appends the given fields unchanged as a new `waiting` entry stamped with the join time; a failed commit throws and leaves the queue as it was; the store invariant is kept |
| QueueHook.QueueStore.Complete | src/hooks/useQueue.ts:78-157 | the shared transition: an unknown id changes nothing (NoOp). A committed batch removes the entry and appends a copy with the new status and a `servedAt` stamp. A failed commit throws and changes nothing |
| QueueHook.QueueStore.ServePatient | src/hooks/useQueue.ts:78-103 | the `Complete` transition with status `served` |
| QueueHook.QueueStore.SkipPatient | src/hooks/useQueue.ts:105-130 | the `Complete` transition with status `skipped` |
| QueueHook.QueueStore.RemovePatient | src/hooks/useQueue.ts:132-157 | the `Complete` transition with status `canceled` |
| QueueHook.DeleteOnlyTarget | src/hooks/useQueue.ts:94-95 | with distinct ids, deleting the target's document equals keeping every entry whose id differs, so no other entry changes or moves |
| QueueHook.CompletionEffect | src/hooks/useQueue.ts:83-97 | after a committed serve/skip/remove the queue is one shorter and the served list one longer. The queue is the old one without that id, in the same order. The old served list is a prefix, and the new record is the queue entry with only status and `servedAt` changed. Otherwise nothing changes |
| QueueHook.Ids | src/hooks/useQueue.ts:176-177 | the ids the reset batch deletes, one per queue entry, in order |
| QueueHook.CanceledAll | src/hooks/useQueue.ts:168-175 | one `canceled`, stamped copy per queue entry, in order, with nothing else changed |
| QueueHook.QueueStore.ResetQueue | src/hooks/useQueue.ts:159-190 | a declined confirm changes nothing and a failed commit throws and changes nothing. A committed reset empties the queue and appends one canceled copy per former entry. It then updates today's statistics from the lists held before the reset. The store invariant is kept |
| QueueHook.WaitTimes | src/hooks/useQueue.ts:204-210 | one wait per record that has both stamps, in order, each `round((servedAt - joinedAt) / 60000)` |
| QueueHook.WaitStats | src/hooks/useQueue.ts:216-218 | (average, shortest, longest): all 0 for no waits. Otherwise the average is the rounded mean, shortest <= average <= longest, shortest and longest are waits, and they bound every wait |
| QueueHook.DailyAnalytics | src/hooks/useQueue.ts:194-220 | the totals are the counts of today's served-collection records by status; `queueSize` is the queue length; the wait statistics come only from today's `served` records |
| QueueHook.CountsPartition | src/hooks/useQueue.ts:200-202 | for finished records, the counts of the three statuses add up to the number of records |
| QueueHook.DailyTotalsCoverToday | src/hooks/useQueue.ts:213-215 | the three totals together count every record finished today |
| QueueHook.QueueStore.CalculateDailyAnalytics | src/hooks/useQueue.ts:192-226 | today's statistics document is replaced when it exists and the write succeeds; otherwise nothing changes (the error is swallowed); the collections are untouched |
| AnalyticsHook.WaitMinutes | src/hooks/useAnalytics.ts:38-40 | the wait in whole minutes, rounded half up |
| AnalyticsHook.MakeRecord | src/hooks/useAnalytics.ts:42-49 | the record carries the given fields; it has a wait time exactly when `servedAt` is given, and then it is the rounded minutes |
| AnalyticsHook.DayQuery | src/hooks/useAnalytics.ts:81-83 | `query(analytics/{doctorId}/{day}, orderBy('timestamp', 'desc'))`: exactly the events stored under that path, each as often as stored, latest server timestamp first |
| AnalyticsHook.Records | src/hooks/useAnalytics.ts:85-87 | one record per snapshot document, in snapshot order, each the document's record |
| AnalyticsHook.RecordsMember | src/hooks/useAnalytics.ts:85-87 | a record is pushed exactly when some document of the snapshot carries it |
| AnalyticsHook.RecordsAt | src/hooks/useAnalytics.ts:81-87 | one read pushes one record per event stored under that doctor and day, in the query's order (latest timestamp first); a record is pushed exactly when an event under that path carries it |
| AnalyticsHook.AnalyticsStore.LogPatientEvent | src/hooks/useAnalytics.ts:29-63 | a successful write appends one event under analytics/{doctorId}/{day of joinedAt} with the built record and the server time; a failed write is swallowed and stores nothing |
| AnalyticsHook.WalkShape | src/hooks/useAnalytics.ts:75-105 | the date loop visits start, start + 1 day, ... while not after end: floor((end - start) / day) + 1 instants, or none when start > end |
| AnalyticsHook.WalkCoversDays | src/hooks/useAnalytics.ts:75-105 | with a fixed time-zone offset the k-th visited instant is k calendar days after the first. The loop covers the whole day range exactly when end's time of day is not earlier than start's |
| AnalyticsHook.WalkMissesLastDayWhenEndIsEarlierInTheDay | src/hooks/useAnalytics.ts:76 | a window from 10:00 to 09:00 the next day visits only the first day |
| AnalyticsHook.SortByJoinedDesc | src/hooks/useAnalytics.ts:108 | the sort's result is ordered by `joinedAt`, latest first, and is a permutation of its input |
| AnalyticsHook.ReadDay | src/hooks/useAnalytics.ts:79-102 | one day's reads collect the records of the chosen doctors, doctor by doctor, each doctor's read latest timestamp first |
| AnalyticsHook.RecordsOfDayMember | src/hooks/useAnalytics.ts:79-102 | a record is read on a day exactly when it is stored on that day under one of the doctors read |
| AnalyticsHook.FetchedSnoc | src/hooks/useAnalytics.ts:76-105 | one more loop day appends that day's records after those already collected |
| AnalyticsHook.FetchRange | src/hooks/useAnalytics.ts:72-105 | the date loop collects, in visiting order, the records of every visited day |
| AnalyticsHook.FetchedMember | src/hooks/useAnalytics.ts:72-105 | a record is fetched exactly when it is stored under one of the doctors read and on the day of one of the visited instants |
| AnalyticsHook.AnalyticsState.constructor | src/hooks/useAnalytics.ts:26-27 | the hook starts with no records and not loading |
| AnalyticsHook.AnalyticsState.GetAnalyticsByDateRange | src/hooks/useAnalytics.ts:65-117 | on success the published records are the fetched records sorted latest first; on failure they stay as they were; loading always ends false |
| AnalyticsHook.IndexOfKey | src/hooks/useAnalytics.ts:130 | the index of a doctor's key in the sizes dictionary, or None exactly when the key is absent |
| AnalyticsHook.SumCounts | src/components/Analytics.tsx:94 | the sum of the dictionary's values (activeQueues) is at least each value, and 0 exactly when every value is 0 |
| AnalyticsHook.SumCountsUpdate | src/components/Analytics.tsx:94 | replacing one entry changes the sum by the difference of the counts |
| AnalyticsHook.IndexOfSameKeys | src/hooks/useAnalytics.ts:130 | the key lookup depends only on the keys |
| AnalyticsHook.IndexOfAppend | src/hooks/useAnalytics.ts:130 | a key added at the end is found there only when no earlier entry has it |
| AnalyticsHook.IncrementKeepsShape | src/hooks/useAnalytics.ts:130 | incrementing keeps the keys distinct and every count positive |
| AnalyticsHook.IncrementSizeOf | src/hooks/useAnalytics.ts:130 | incrementing adds one to that doctor's size and leaves every other size alone |
| AnalyticsHook.IncrementSum | src/hooks/useAnalytics.ts:130 | incrementing adds one to the total |
| AnalyticsHook.CountForSnoc | src/hooks/useAnalytics.ts:128-131 | one more patient adds one to its own doctor's count only |
| AnalyticsHook.GetCurrentQueueSizes | src/hooks/useAnalytics.ts:119-138 | on success each doctor's size is its number of unserved patients. Keys are distinct and only positive sizes are listed, and the sizes sum to the number of unserved patients. A failed read gives the empty dictionary |
| DailyReset.ArchivedEvents | src/hooks/useDailyReset.ts:39-50 | every archived event is a `canceled` visit without a served time, stamped with the reset time |
| DailyReset.ArchivedAtMostUnserved | src/hooks/useDailyReset.ts:39-50 | archiving stores at most one event per unserved patient |
| DailyReset.ArchivedEventsSnoc | src/hooks/useDailyReset.ts:39-50 | one more patient document adds its event, when stored, after those of the documents before it |
| DailyReset.StoredIndexes | src/hooks/useDailyReset.ts:39-50 | the documents whose event is stored: in increasing order, exactly those of an unserved patient whose analytics write succeeds |
| DailyReset.ArchivedEventsAreStoredOnes | src/hooks/useDailyReset.ts:39-50 | whichever writes fail, the stored events are, in order, the canceled events of exactly the patients at the stored indexes; a failed write drops only its own patient's event |
| DailyReset.ArchiveOnePerUnserved | src/hooks/useDailyReset.ts:39-50 | when every write succeeds, exactly one canceled event per unserved patient is stored, in document order, naming that patient and doctor, and its day is that of the join time (or now when the timestamp is missing) |
| DailyReset.CloseAll | src/hooks/useDailyReset.ts:98-104 | the same doctors in the same order, none accepting queues, nothing else changed |
| DailyReset.ApplyClose | src/hooks/useDailyReset.ts:100-104 | a batch update closes exactly the doctors with the listed ids |
| DailyReset.ResetScheduler.ArchiveActivePatients | src/hooks/useDailyReset.ts:31-58 | a failed read throws and stores nothing; otherwise the archived events are appended; the collections are untouched |
| DailyReset.ResetScheduler.ClearPatientsCollection | src/hooks/useDailyReset.ts:60-84 | succeeds exactly when the read succeeds and the collection is empty or the commit succeeds; on success the `patients` collection is empty, otherwise unchanged |
| DailyReset.ResetScheduler.ResetDoctorQueues | src/hooks/useDailyReset.ts:86-112 | succeeds exactly when the read succeeds and there are no doctors or the commit succeeds; on success every doctor is closed, otherwise unchanged |
| DailyReset.ResetScheduler.PerformDailyReset | src/hooks/useDailyReset.ts:114-139 | the steps run in order and the first failing step stops the reset. Each step's effect stays as it was. The marker becomes today only when every step succeeded |
| DailyReset.ResetScheduler.CheckAndPerformReset | src/hooks/useDailyReset.ts:141-153 | a marker equal to today changes nothing; any other marker runs the reset |
| DailyReset.ResetScheduler.ManualReset | src/hooks/useDailyReset.ts:155-159 | a declined confirm changes nothing; a confirmed one runs the reset whatever the marker |
| DailyReset.CompletedResetIsRecorded | src/hooks/useDailyReset.ts:127-129 | a completed reset records today, leaves no patients and no doctor accepting; a failed one leaves the marker alone, so the next check retries |
| DoctorQueueCard.ActiveServedPartition | src/components/DoctorQueueCard.tsx:28-29 | a doctor's waiting and served lists together hold exactly that doctor's patients, counted with multiplicity |
| DoctorQueueCard.RemoveAt | src/components/DoctorQueueCard.tsx:35 | `splice(i, 1)`: the elements before i stay, those after i move one place forward, and the multiset loses exactly that element |
| DoctorQueueCard.InsertAt | src/components/DoctorQueueCard.tsx:36 | `splice(j, 0, x)`: x is at j, the elements before j stay, those from j on move one place back, and the multiset gains exactly x |
| DoctorQueueCard.OriginIsPermutation | src/components/DoctorQueueCard.tsx:34-36 | the index map of a drag is a bijection on the list's indexes |
| DoctorQueueCard.OriginInverse | src/components/DoctorQueueCard.tsx:34-36 | the index map of dragging back undoes that of dragging |
| DoctorQueueCard.Move | src/components/DoctorQueueCard.tsx:34-36 | the two splices put the dragged item at the destination, shift the items in between by one, and keep every other item; the result is a permutation |
| DoctorQueueCard.MoveInPlace | src/components/DoctorQueueCard.tsx:34-36 | dropping an item where it was picked up changes nothing |
| DoctorQueueCard.MoveBack | src/components/DoctorQueueCard.tsx:34-36 | dragging back from the destination to the source restores the list |
| DoctorQueueCard.Renumber | src/components/DoctorQueueCard.tsx:39-42 | positions become 1..N in list order, and nothing but the position changes |
| DoctorQueueCard.HandleDragEnd | src/components/DoctorQueueCard.tsx:31-44 | no destination means no reorder; otherwise each index k holds the patient the drag moved there, with position k + 1 |
| AnalyticsView.StatusCountsPartition | src/components/Analytics.tsx:126-130 | the three status counts add up to the number of records |
| AnalyticsView.FilteredDoctors | src/components/Analytics.tsx:83-85 | with `all` selected every doctor; otherwise exactly the doctors with the selected id |
| AnalyticsView.TotalPatientsToday | src/components/Analytics.tsx:88 | the `reduce` counts exactly the `served` records |
| AnalyticsView.TotalSkippedCanceled | src/components/Analytics.tsx:89-90 | the `reduce` counts exactly the `skipped` and `canceled` records |
| AnalyticsView.SummaryCoversAll | src/components/Analytics.tsx:88-90 | the two summary cards together count every record |
| AnalyticsView.WaitsOrZero | src/components/Analytics.tsx:92 | the list of waits with a missing wait read as 0 |
| AnalyticsView.SumWaitsIsSum | src/components/Analytics.tsx:92 | the `reduce` is the sum of that list |
| AnalyticsView.AverageWaitTime | src/components/Analytics.tsx:91-93 | 0 for no records; otherwise the rounded mean of the waits (missing as 0), between their minimum and maximum |
| AnalyticsView.Bump | src/components/Analytics.tsx:100-103 | adding a record to a day's entry adds one to its own status only |
| AnalyticsView.NewTrend | src/components/Analytics.tsx:105-110 | a new day's entry counts one for the record's status and 0 for the others |
| AnalyticsView.IndexOfDate | src/components/Analytics.tsx:99 | the first entry with that date, or None exactly when no entry has it |
| AnalyticsView.DailyTrends | src/components/Analytics.tsx:97-113 | one entry per distinct day label, in order of first appearance. Each entry counts exactly the records of that day and status. Over all entries each status sums to its count in the records |
| AnalyticsView.Dates | src/components/Analytics.tsx:106 | the dates of the trend entries, in order |
| AnalyticsView.FirstIndex | src/components/Analytics.tsx:99 | the index of the first occurrence of a label |
| AnalyticsView.FirstIndexAppend | src/components/Analytics.tsx:99-111 | a later label never moves an earlier first occurrence; a new label's first occurrence comes after all the old ones |
| AnalyticsView.Dedup | src/components/Analytics.tsx:99-111 | the distinct labels in order of first appearance: the same members, with no repeats, ordered by the index of each label's first occurrence |
| AnalyticsView.IndexOfDateSameDates | src/components/Analytics.tsx:99 | the lookup depends only on the dates |
| AnalyticsView.IndexOfDateAppend | src/components/Analytics.tsx:99 | a date added at the end is found there only when no earlier entry has it |
| AnalyticsView.DatesMember | src/components/Analytics.tsx:99 | the lookup succeeds exactly when the date is among the entries' dates |
| AnalyticsView.AddRecordDates | src/components/Analytics.tsx:99-111 | one record adds its date at the end only when it is new |
| AnalyticsView.TrendsDates | src/components/Analytics.tsx:97-113 | the entries' dates are the distinct labels in order of first appearance |
| AnalyticsView.AddRecordTrendOf | src/components/Analytics.tsx:99-111 | one record adds one to its own day and status only |
| AnalyticsView.CountDatedSnoc | src/components/Analytics.tsx:97-113 | the per-day, per-status count of one more record |
| AnalyticsView.TrendsCount | src/components/Analytics.tsx:97-113 | each day's entry counts exactly the records of that day and status |
| AnalyticsView.SumFieldUpdate | src/components/Analytics.tsx:100-103 | updating one entry changes the column total by the difference |
| AnalyticsView.AddRecordSum | src/components/Analytics.tsx:99-111 | one record adds one to its status's column total |
| AnalyticsView.TrendsSum | src/components/Analytics.tsx:97-113 | each status column of the chart sums to its count in the records |
| AnalyticsView.FilterTwice | src/components/Analytics.tsx:116-121 | counting a status among a doctor's records is counting records of that doctor and status |
| AnalyticsView.StatFor | src/components/Analytics.tsx:116-123 | a doctor's row: its name, the count of its records per status, and its queue size (0 when absent) |
| AnalyticsView.DoctorStats | src/components/Analytics.tsx:115-124 | one row per shown doctor, in order; a doctor missing from the sizes dictionary has queue 0 |
| AnalyticsView.HitsDistinct | src/components/Analytics.tsx:115-116 | with distinct doctor ids, a record's doctor is matched by one row when listed and none otherwise |
| AnalyticsView.SumStatSnoc | src/components/Analytics.tsx:115-124 | one more record adds one to the status column of the rows whose doctor it names |
| AnalyticsView.StatusCountSnoc | src/components/Analytics.tsx:127-129 | one more record adds one to its own status count |
| AnalyticsView.DoctorStatsTotals | src/components/Analytics.tsx:115-124 | when every record's doctor is listed once, each status column of the table sums to its count in the records |
| AnalyticsView.DoctorStatsEmpty | src/components/Analytics.tsx:115-124 | with no records every status column is 0 |
| AnalyticsView.StatusDistribution | src/components/Analytics.tsx:126-130 | the three slices are the status counts; they sum to the number of records and agree with the summary cards |
| PhoneValidation.Clean | src/utils/phoneValidation.ts:3 | `replace(/\D/g, '')` keeps digits only and is never longer |
| PhoneValidation.CleanAppend | src/utils/phoneValidation.ts:3 | cleaning distributes over concatenation |
| PhoneValidation.CleanOfDigits | src/utils/phoneValidation.ts:3 | a digit string is its own cleaning |
| PhoneValidation.ValidatePhilippinePhone | src/utils/phoneValidation.ts:1-17 | valid exactly when the raw input is 09 + 9 digits, 639 + 9 digits or +639 + 9 digits, so 11, 12 or 13 characters long |
| PhoneValidation.PatternsBySuffix | src/utils/phoneValidation.ts:10-16 | the three patterns are one: a prefix `09`, `639` or `+639` followed by exactly nine digits |
| PhoneValidation.ValidHasNoSeparators | src/utils/phoneValidation.ts:16 | a valid number has no separators: it is its own cleaning, or `+` before it |
| PhoneValidation.FormatPhilippinePhone | src/utils/phoneValidation.ts:19-29 | cleaned `639…` becomes `+639…`, cleaned `09…` becomes `+639…` (the 0 dropped), anything else is returned unchanged |
| PhoneValidation.CleanPlusDigits | src/utils/phoneValidation.ts:20 | cleaning `+` and digits gives the digits |
| PhoneValidation.FormatIdempotent | src/utils/phoneValidation.ts:19-29 | formatting twice is formatting once |
| PhoneValidation.FormatOfValidIsCanonical | src/utils/phoneValidation.ts:19-29 | a valid number formats to `+639` and nine digits, which is again valid |
| ExportUtils.NatToString | src/utils/exportUtils.ts:94 | the decimal text of a number: non-empty, digits only, no leading zero |
| ExportUtils.ParsePrinted | src/utils/exportUtils.ts:94 | reading the printed digits back gives the number |
| ExportUtils.IntToString | src/utils/exportUtils.ts:94 | the decimal text, with `-` for negatives |
| ExportUtils.IntToStringIsPlain | src/utils/exportUtils.ts:94 | a printed number has no comma, quote or newline |
| ExportUtils.OccurrencesAppend | src/utils/exportUtils.ts:98 | counts of a character add over concatenation |
| ExportUtils.JoinCountsSeparators | src/utils/exportUtils.ts:98 | joining n parts free of c with c gives n - 1 occurrences of c |
| ExportUtils.Fields | src/utils/exportUtils.ts:90-97 | the six CSV cells: the quoted name, doctor id and status. The wait is empty exactly when missing or 0. Then the joined time, and the served time, which is empty when missing |
| ExportUtils.Lines | src/utils/exportUtils.ts:88-97 | the header line, then one row per record in order |
| ExportUtils.JoinStartsWithFirst | src/utils/exportUtils.ts:98 | a join starts with its first part |
| ExportUtils.CsvStartsWithHeader | src/utils/exportUtils.ts:86-89 | the CSV text starts with the comma-joined headers |
| ExportUtils.JoinNoChar | src/utils/exportUtils.ts:89-97 | joining parts and a separator free of c gives a text free of c |
| ExportUtils.RowHasNoNewline | src/utils/exportUtils.ts:89-97 | a row has no newline when the name, the doctor id and the time texts have none |
| ExportUtils.CsvLineCount | src/utils/exportUtils.ts:85-98 | with newline-free names, ids and times, the CSV has exactly one newline per record, i.e. a header line and one line per record |
| ExportUtils.HeaderHasNoNewline | src/utils/exportUtils.ts:86 | no header holds a newline |
| ExportUtils.NoCharWhenAbsent | src/utils/exportUtils.ts:98 | a text without c has no occurrence of c |
| ExportUtils.PdfSummary | src/utils/exportUtils.ts:30-34 | the PDF's three summary numbers equal the dashboard's: served, not served (the two add up to the records) and the average wait, which is 0 for no records |
| ExportUtils.NotServedIsSkippedOrCanceled | src/utils/exportUtils.ts:32 | "not served" counts exactly the skipped and canceled records |
| PatientForm.AvailableDoctorsExact | src/components/PatientForm.tsx:22 | a doctor is offered exactly when it is listed and accepts queues |
| PatientForm.AvailableDoctorsSnoc | src/components/PatientForm.tsx:22 | the offered doctors keep the list's order |
| PatientForm.EstimatedPositionIsEndOfCard | src/components/PatientForm.tsx:71-72 | the position shown after joining is one more than the chosen doctor's waiting list on the staff card, so between 1 and the number of patients plus 1 |
| PatientForm.FormState.constructor | src/components/PatientForm.tsx:8-16 | an empty form over the saved code, with no status shown |
| PatientForm.FormState.SavedCodeEffect | src/components/PatientForm.tsx:25-36 | a saved code carried by an unserved patient sets the code and that patient's position. A saved code nobody waiting carries is removed. An empty saved code changes nothing. The form fields are untouched |
| PatientForm.FormState.HandleSubmit | src/components/PatientForm.tsx:38-81 | a request is sent exactly when every field is filled, the phone is valid and the doctor exists; it carries the normalised phone. An invalid phone shows the error. A returned code is saved and shown with position (doctor's waiting count) + 1. A resolved add clears the form, and loading ends |
| PatientForm.FormState.HandleInputChange | src/components/PatientForm.tsx:83-92 | the named field takes the value; editing the phone clears its error |
| PatientForm.FormState.RefreshStatus | src/components/PatientForm.tsx:94-105 | the position follows the unserved patient carrying the code; with no such patient the code, position and saved code are cleared and the status view goes |
| PatientForm.FormState.ResetForm | src/components/PatientForm.tsx:107-111 | code, position and saved code are cleared, so the status view is not shown |

## Left out

- Firestore I/O: `onSnapshot` listeners, `getDocs`, `addDoc`, `updateDoc`, `writeBatch`/`commit` and `serverTimestamp` are modelled as in-memory collections, each batch as one atomic step, and each failure as a boolean parameter.
- The `orderBy('joinedAt')`/`orderBy('servedAt')` query orders of the snapshot listeners: the queue is kept in insertion order, which equals join order for a single writer.
- Concurrency: the hourly and midnight timers of the daily reset, overlapping resets, and the parallel `Promise.all` archive writes. Archived events are appended in document order.
- Date formatting (`date-fns` `format`, `toISOString`, `parseISO`) is a function parameter. Time zones appear only as the fixed offset in `AnalyticsHook.WalkCoversDays`.
- Browser side effects: `toast`, `console`, `confirm()` (a boolean parameter), and `localStorage` (the fields `lastResetDate` and `savedCode`).
- The source's `AnalyticsRecord.id` and the Firestore document ids of served and analytics documents: queue entries carry a counter-assigned `nat` id, and served copies keep the queue entry's id.
- QueueHook.QueueStore.AddPatient: callers pass a doctor name and expect a returned code, but the shown `addPatient` takes one argument and returns nothing. The model follows the shown code, and `PatientForm` takes the code as a parameter.
- `reorderPatients`, `markAsServed` and `updatePatient`, which callers use, are not defined in the shown hooks and are not modelled. The drag reorder is modelled as `handleDragEnd` computes it. Writing the reordered positions back is not part of the shown component.
- PatientForm.FormState.HandleSubmit: React's asynchronous state batching is not modelled; the method states the state after the handler has finished.
- The status view's own lookups (src/components/PatientForm.tsx:115-116) only choose what to render.
- Rendering: JSX, charts, the jsPDF document layout, the CSV Blob download and QR codes.
- The auth pages, the doctor and clinic CRUD hooks, and the other UI components only repeat the filters and counts modelled here.
- The Supabase function is a stub that performs no reset.
- AnalyticsHook.RecordsAt: Firestore's order among documents with equal server timestamps is not modelled; the model keeps store order among them.
- AnalyticsHook.AnalyticsStore.LogPatientEvent: without `servedAt` the record's `servedAt` and `waitTimeMinutes` are `undefined`. Firestore's `addDoc` rejects undefined fields unless `ignoreUndefinedProperties` is set, and src/config/firebase is not part of this model. The model assumes those writes succeed whenever `storeOk` says so; with the default setting every archive write of the daily reset would fail and be swallowed, which `DailyReset.ArchivedEventsAreStoredOnes` covers with `storeOk` false everywhere.
- PatientForm.FormState.SavedCodeEffect and PatientForm.FormState.HandleSubmit: the form reads `patients` from `useQueue()` without a clinic id, but the shown hook takes a `clinicId` and returns `queuePatients` and `servedPatients`, not `patients`. The model takes the patients snapshot as a parameter.
- QueueHook.QueueStore.CalculateDailyAnalytics: nothing in the shown code creates an `analytics/{day}` document, so `updateDoc` succeeds only on a document made elsewhere. The constructor takes those documents as `existingStats`.
- AnalyticsHook.SortByJoinedDesc: `Array.prototype.sort` is modelled by its result (ordered and a permutation), not by the engine's algorithm. Records with equal `joinedAt` may come out in a different order than in the engine.
