# Web-log client features, modelled in Dafny

The clustering repository turns an nginx-style access log into per-client
features before it clusters the clients. A client is the key `"ip:ua"`. The
key is built from the text before the first `-` of a log line (the IP) and
from the sixth `"`-separated field (the User-Agent). This project models the
scripts that compute those features:

- `parse_log.py` (`ParseLog`, `Segmentation`, `RequestRate`, `TimingStats`,
  `SessionTable`): every client's requests are split into sessions wherever
  two neighbouring requests are at least 30 minutes apart. Each session gets
  its requests-per-interval (RPI) series, the differences between its
  neighbouring requests, their mean and their sample deviation. The four
  dictionaries are turned into tables and joined on (IP, UA, Session).
  A quirk is modelled as written: one `session_diffs` list per client is
  appended again and again. So every non-None Diff entry of a client shows
  all of that client's differences.
- `parse_deviation.py` (`GapDeviation`): the same differences without
  sessions. A run is appended at every long gap and then cleared in place,
  so every entry of a client is the one list with its final contents.
- `parse_interval.py` and the `parse_interval` of `parse.py`
  (`IntervalCounter`): one global interval is open at a time. Closing it
  appends `count / interval` to the series of every client seen in it.
  `parse_interval.py` closes a still-open interval after the last line;
  `parse.py` does not.
- `analyse_clients.py` and the identical first two functions of `parse.py`
  (`ClientCounts`): the number of distinct IPs in the first `lines` reads,
  and the number of IPs seen with more than one User-Agent.
- Shared pieces: `Common` holds the request, the client key, the line
  limit, sums and the `DiffList` list object. `LineFields` holds `str.find`,
  slicing, `str.split` and the field extractions. `Moments` holds the mean
  and deviation.

The scripts' loops are methods proved against specification functions. The
segmentation dictionaries are a class (`Segmentation.Segmenter`). The
aliased lists are objects of class `Common.DiffList`. Timestamps are whole
seconds. Float arithmetic is modelled with reals. A deviation keeps its
radicand symbolically (`SqrtOf(r)` stands for `math.sqrt(r)`).

## Model

| member | source | states |
|---|---|---|
| Common.ClientOf | parse_log.py:45 | the key is the IP, one `:` and the User-Agent; both parts can be read back from it |
| Common.Taken | parse_log.py:30-34 | a positive limit keeps the first limit-1 lines; 0 keeps all; a negative limit keeps none; always a prefix of the log |
| Common.TimestampsSnoc | parse_deviation.py:44-47 | one more line extends only its own client's timestamp list, by its timestamp |
| Common.TimestampsOwner | parse_deviation.py:45-47 | a client's timestamp list is non-empty exactly when one of the lines is that client's |
| Common.RatesConserveCounts | parse_log.py:70-75 | the rates of a series, times the interval, add up to its request counts |
| Common.DiffList.constructor | parse_log.py:82 | a new list is empty |
| Common.DiffList.Append | parse_log.py:87 | `append` adds one difference at the end and keeps the rest |
| Common.DiffList.Clear | parse_deviation.py:63 | `clear` empties the same list object |
| LineFields.Find | parse_log.py:36 | `find` gives -1 exactly when the character is absent, otherwise the index of its first occurrence |
| LineFields.Bound | parse_log.py:36 | a slice bound is clamped into the string; a negative bound counts from the end |
| LineFields.IpOfCases | parse_log.py:36 | the IP field stops before the character that precedes the first `-`; with `-` first it drops the last character; without a `-` it drops the last two |
| LineFields.Split | parse_log.py:37 | `split` gives one part more than there are separators, and no part holds a separator |
| LineFields.SplitJoin | parse_log.py:37 | joining the parts with the separator gives back the line |
| LineFields.UaOf | parse_log.py:37 | field 5 raises IndexError exactly when the line has fewer than five `"`; the User-Agent holds no `"` |
| LineFields.SplitKeyRoundTrip | parse_log.py:158-160 | splitting a key at its first `:` gives back the IP and User-Agent it was built from, when the IP has no `:` |
| LineFields.SplitKeyInjective | parse_log.py:158-160 | two keys with a `:` that split the same are the same key |
| LineFields.SplitKeyRejoin | parse_log.py:158-160 | rejoining the two halves gives the key, and the IP half has no `:` |
| Moments.MeanOf | parse_deviation.py:73 | the mean is None exactly for an empty list |
| Moments.MeanScales | parse_log.py:102 | mean × length = sum of the differences |
| Moments.SquaredDeviations | parse_log.py:114-118 | one squared deviation per difference, each non-negative |
| Moments.DeviationFacts | parse_log.py:126-132 | the deviation is None exactly below two differences; otherwise its radicand is non-negative and radicand × (n-1) = the sum of squared deviations; no cell keeps its list of squares |
| RequestRate.SessionRpi | parse_log.py:65-76 | the loop emits the session's RPI series: each bucket's count divided by the interval, the last bucket emitted at the last timestamp |
| RequestRate.ClientRates | parse_log.py:63-76 | one series per session |
| RequestRate.ClientRpi | parse_log.py:62-77 | the loop builds the series of every session of a client, in order |
| RequestRate.BucketsFromFacts | parse_log.py:68-75 | from any point of the loop, the buckets still to come each hold at least one request and add up to the requests left plus the open count |
| RequestRate.BucketsPartitionSession | parse_log.py:64-76 | every bucket holds at least one request, the buckets add up to the session's length, and the rates × interval add up to the session's length |
| RequestRate.BucketBoundaries | parse_log.py:64-76 | for a positive interval, the buckets cover the session in order: every later timestamp of a bucket lies less than an interval after the bucket's first timestamp, and the timestamp that opens the next bucket lies at least an interval after it, so a bucket closes exactly at the first timestamp an interval away |
| RequestRate.NonPositiveIntervalFirstEmpty | parse_log.py:69-72 | for an interval of zero or less the very first timestamp already closes a bucket, so the first bucket holds no request and there are at least two |
| RequestRate.BucketsFromSpan | parse_log.py:69-71 | for sorted timestamps, the buckets still to come span at most the time left |
| RequestRate.BucketCountBound | parse_log.py:69-71 | for a sorted session, (buckets - 1) × interval is at most the session's duration |
| RequestRate.ExampleSession | parse_log.py:65-75 | timestamps 0, 5, 10, 40 with interval 10 give counts 2, 1, 1 and rates 0.2, 0.1, 0.1 |
| Segmentation.BufferFacts | parse_log.py:46-53 | a client's closed sessions plus its open buffer are its timestamps in order; every session is non-empty, has only short gaps, and is a long gap away from the next |
| Segmentation.SessionsPartition | parse_log.py:46-58 | the sessions concatenate to the timestamps, are non-empty, have only short gaps inside and long gaps between |
| Segmentation.SessionsAfterGap | parse_log.py:47-51 | a timestamp a long gap after the last one starts a new session |
| Segmentation.SessionsWithinGap | parse_log.py:53 | a timestamp a short gap after the last one extends the last session |
| Segmentation.SessionsUnique | parse_log.py:46-58 | the sessions are the only split of the timestamps into non-empty sessions with short gaps inside and long gaps between |
| Segmentation.StepEntry | parse_log.py:45-53 | one line changes only its own client's buffers, and those by one push |
| Segmentation.StepMirrors | parse_log.py:31-53 | after one more line, every client's dictionaries still hold what its own timestamps produce |
| Segmentation.SegFoldMirrors | parse_log.py:29-53 | after the line loop, every client holds what its own timestamps produce |
| Segmentation.FlushFromFacts | parse_log.py:56-58 | the flush appends every open buffer as a final session and leaves the other clients alone |
| Segmentation.SegmentSessions | parse_log.py:27-58 | `clients_reqs` lists each client once; a client is a key exactly when it sent a request, and its sessions are those of its own timestamps |
| Segmentation.ClientIndependence | parse_log.py:46-58 | a client's sessions depend only on its own timestamps |
| Segmentation.Segmenter.constructor | parse_log.py:27-28 | both dictionaries start empty, and the segmenter is well formed (each key order lists its dictionary's keys once each, and no key holds an empty list) |
| Segmentation.Segmenter.Step | parse_log.py:45-53 | one line updates the two dictionaries and their key orders as the segmentation step does, and keeps the segmenter well formed |
| Segmentation.Segmenter.Flush | parse_log.py:55-58 | the end-of-input loop closes every non-empty buffer, in key order, and keeps the segmenter well formed |
| TimingStats.ClientDiffs | parse_log.py:81-95 | entry `i` is None while sessions up to `i` had one timestamp each, and the shared list with all the client's differences from then on; every non-None entry is the same object |
| TimingStats.Recorded | parse_log.py:89-95 | one entry per session, each None or the shared list |
| TimingStats.RecordedShown | parse_log.py:82-95 | once the shared list holds all differences, the entries read as the Diff column |
| TimingStats.AppendDiffs | parse_log.py:84-87 | a session with only short gaps appends all its differences, in order |
| TimingStats.AllDiffsLength | parse_log.py:84-87 | there are as many differences as timestamps minus sessions; none exactly when every session has one timestamp |
| TimingStats.NoDiffDropped | parse_log.py:84-87 | the client's differences are exactly its short gaps, in order |
| TimingStats.DiffEntriesFacts | parse_log.py:92-132 | one Diff entry per session, None exactly for a run of one-timestamp sessions at the start; a mean is None exactly with it; a deviation is None exactly with it or with only one difference |
| TimingStats.DiffEntryAt | parse_log.py:92-95 | entry `i` is None exactly when sessions 0..i have one timestamp each, and otherwise the non-empty list of all differences |
| TimingStats.ClientMeans | parse_log.py:99-104 | None exactly for a None entry; otherwise mean × length = sum |
| TimingStats.ClientSquares | parse_log.py:108-119 | None for a None entry, otherwise the squared deviations from the entry's stored mean |
| TimingStats.FinishCells | parse_log.py:121-132 | every cell is finished in place, and no list of squares is left |
| SessionTable.ClientRows | parse_log.py:157-166 | one row per list entry, keyed by the split key and the session number from 1 |
| SessionTable.FrameLength | parse_log.py:156-168 | a table has one row per list entry of the dictionary |
| SessionTable.DictToFrame | parse_log.py:147-168 | the loop builds the table of the dictionary's items, in insertion order |
| SessionTable.FrameOfRows | parse_log.py:157-166 | entry `i` of client `j` sits after the rows of the clients before it, with key (IP, UA, i+1) |
| SessionTable.MergeAligned | parse_log.py:140-142 | a join of tables with the same keys row by row, and no repeated key on the right, pairs row `k` with row `k` |
| SessionTable.MergeSuffix | parse_log.py:140 | the same holds for every suffix of the left table |
| SessionTable.FrameKeysByShape | parse_log.py:135-138 | dictionaries with the same keys and list lengths give tables with the same key column |
| SessionTable.KeysAlign | parse_log.py:140-142 | equal key columns are aligned, and distinct keys on one side are distinct on the other |
| SessionTable.ZipKeys | parse_log.py:140-142 | a joined table keeps the key column of its left table |
| SessionTable.FrameRowOwner | parse_log.py:157-166 | every row's key comes from one of the dictionary's clients |
| SessionTable.FrameKeysDistinct | parse_log.py:157-166 | distinct clients whose keys contain `:` give rows with distinct keys |
| ParseLog.SegmentBuilt | parse_log.py:27-58 | segmentation holds, for every client, the sessions of its own timestamps |
| ParseLog.SegmentComplete | parse_log.py:27-58 | there is no client exactly when no line is read |
| ParseLog.SegmentLines | parse_log.py:29-58 | the limited line loop and the flush give the segmentation of the lines within the limit |
| ParseLog.RpiStage | parse_log.py:61-77 | a zero interval raises ZeroDivisionError exactly when there is a client; otherwise one RPI column per client in key order |
| ParseLog.DiffStage | parse_log.py:80-95 | the Diff column of every client, in key order |
| ParseLog.MeanStage | parse_log.py:98-104 | the Mean column of every client |
| ParseLog.DeviationStage | parse_log.py:107-132 | the Deviation column of every client, after both passes |
| ParseLog.ParseDeviation | parse_log.py:12-142 | the whole script gives the report |
| ParseLog.ReportErrors | parse_log.py:29-142 | KeyError exactly when no line is taken (an empty log, or a limit of 1 or less other than 0); otherwise ZeroDivisionError exactly for a zero interval |
| ParseLog.ReportTable | parse_log.py:134-142 | a report holds one row per session, client after client in `clients_reqs` key order, session after session |
| ParseLog.SegmentedTable | parse_log.py:134-142 | the joined table of the segmentation is that table |
| ParseLog.JoinedTable | parse_log.py:134-142 | the same, for any state that holds the sessions of the clients' timestamps |
| ParseLog.JoinedRow | parse_log.py:134-142 | the row of session `i` of the `j`-th client holds its IP, UA, number, RPI series and Diff, Mean and Deviation entries |
| ParseLog.RowCount | parse_log.py:134-142 | the table has as many rows as the clients have sessions |
| ParseLog.ReportJoined | parse_log.py:134-142 | with a client and a non-zero interval, the report is the joined table |
| ParseLog.AllRowsCount | parse_log.py:136 | the Diff dictionary has one entry per session |
| ParseLog.OffsetCount | parse_log.py:136 | the entries of the first `j` clients are their sessions |
| ParseLog.FrameSize | parse_log.py:135-138 | any dictionary with one entry per session has as many entries as there are sessions |
| ParseLog.ItemsAt | parse_log.py:135-138 | the four dictionaries' entries for session `i` of the `j`-th client make that session's row |
| ParseLog.TableZip | parse_log.py:140-142 | the three joins pair the four tables row by row |
| ParseLog.ZipTableAt | parse_log.py:140-142 | the paired row of session `i` of the `j`-th client holds its entries from the four dictionaries |
| ParseLog.PrefixOffsets | parse_log.py:135-138 | the four tables place each client's rows at the same offset |
| ParseLog.TableAligned | parse_log.py:140-142 | the four tables have the same length, and each join equals the row-by-row pairing |
| GapDeviation.SplitRunFacts | parse_deviation.py:56-65 | the number of appends is the number of long gaps; the run left is the gaps after the last long gap, all short |
| GapDeviation.SplitRunCount | parse_deviation.py:57-63 | the number of appends is the number of long gaps |
| GapDeviation.SplitRunTail | parse_deviation.py:57-63 | the run left is a suffix of the gaps, all short, just after a long gap |
| GapDeviation.SplitRunSessions | parse_deviation.py:57-63 | long gaps are one fewer than sessions, and the run left is the last session's gaps |
| GapDeviation.ClientEntriesFacts | parse_deviation.py:54-65 | no entry for one timestamp or none; one entry per long gap, plus one if the run is not empty; every entry shows the final run, which is the last session's gaps |
| GapDeviation.DumpsFacts | parse_deviation.py:54-90 | the three dumps have the same clients; a client is there exactly when it has an entry; every entry is the final run, with its mean and deviation |
| GapDeviation.DumpsClient | parse_deviation.py:54-90 | the same facts for one listed client |
| GapDeviation.GroupLines | parse_deviation.py:26-47 | `clients_reqs` lists each client once; a client is a key exactly when it sent a request within the limit, and holds its timestamps |
| GapDeviation.ClientGapDiffs | parse_deviation.py:56-65 | the loop's entries read as the client's entries and are all one list object |
| GapDeviation.DiffLoop | parse_deviation.py:54-65 | the loop over clients fills `clients_diff` with every client that has an entry |
| GapDeviation.SessionMeans | parse_deviation.py:72-73 | each entry's mean, None for an empty one |
| GapDeviation.MeanLoop | parse_deviation.py:70-73 | `clients_mean` has the same clients, each with its entries' means |
| GapDeviation.SessionSquares | parse_deviation.py:81-85 | each entry's squared deviations from its stored mean |
| GapDeviation.SquaresLoop | parse_deviation.py:79-85 | the first pass for every client |
| GapDeviation.FinishLoop | parse_deviation.py:87-90 | the second pass turns every client's squares into deviations |
| GapDeviation.DumpsMatch | parse_deviation.py:54-90 | the three dictionaries the loops build are the three dumps |
| GapDeviation.ParseGapDeviation | parse_deviation.py:10-95 | the whole script gives the three dumps |
| IntervalCounter.EmitFacts | parse_interval.py:58-62 | closing an interval appends one count to every client seen in it and leaves the others unchanged |
| IntervalCounter.StepValid | parse_interval.py:46-66 | a start time is set exactly when a request is counted, and every count is at least 1; one line keeps this |
| IntervalCounter.CountAllValid | parse_interval.py:31-66 | the loop keeps that invariant |
| IntervalCounter.StepEmits | parse_interval.py:51-66 | the first request of an interval only sets the start; a closing request is counted, then the interval is emitted and reset; others only count |
| IntervalCounter.StepClient | parse_interval.py:46-64 | per client, emitted plus open requests grow by one exactly for the line's client |
| IntervalCounter.ClientConservation | parse_interval.py:31-66 | per client, emitted plus open requests are its requests |
| IntervalCounter.FlushedConservation | parse_interval.py:68-74 | after the final flush every request of a client is in its series, and a client has a series exactly when it sent a request |
| IntervalCounter.EmitTotal | parse_interval.py:58-62 | emitting moves the open count into the emitted total |
| IntervalCounter.GlobalConservation | parse_interval.py:31-66 | emitted plus open requests are all requests |
| IntervalCounter.OpenCountBound | parse_interval.py:47-49 | the open count is not negative, and at least 1 once a client is counted |
| IntervalCounter.ConservationWithAndWithoutFlush | parse.py:41-78 | with the flush every request is emitted; without it, all are emitted exactly when no interval is open at the end |
| IntervalCounter.EndsOpen | parse_interval.py:51-66 | an interval is open at the end exactly when the last line did not close one |
| IntervalCounter.EmittedGrows | parse_interval.py:58-62 | a client that has a series keeps it |
| IntervalCounter.FlushedEmpty | parse_interval.py:68-74 | the dump is empty exactly when no line is read |
| IntervalCounter.FlushReportErrors | parse_interval.py:55-74 | ZeroDivisionError exactly for a zero interval with at least one line |
| IntervalCounter.FlushReportRates | parse_interval.py:31-79 | a client is dumped exactly when it sent a request, and its rates × interval add up to its requests |
| IntervalCounter.RatesOfConserve | parse_interval.py:59 | dividing counts by the interval keeps the clients, and rates × interval give back the count |
| IntervalCounter.RatesOfEmit | parse_interval.py:58-62 | rates of the emitted counts are the old rates with the new rates appended |
| IntervalCounter.AppendOne | parse_interval.py:58-62 | one pass of the loop appends one client's rate |
| IntervalCounter.AppendAll | parse_interval.py:58-62 | the loop appends the rate of every client of the interval |
| IntervalCounter.ZeroIntervalFails | parse_interval.py:55-59 | with a zero interval, a closing line means an interval is emitted, so the division is reached |
| IntervalCounter.CountLines | parse_interval.py:31-66 | ZeroDivisionError exactly when the interval is zero and one closes; otherwise the loop ends with the counter's state and its emitted rates |
| IntervalCounter.ParseInterval | parse_interval.py:7-79 | the whole script, with the final flush, gives the report |
| IntervalCounter.ParseIntervalNoFlush | parse.py:33-81 | the parse.py variant gives the report without the final flush |
| ClientCounts.MultiUaCount | analyse_clients.py:35 | the count is at most the number of IPs in the dictionary |
| ClientCounts.IpsReadSnoc | analyse_clients.py:11-13 | a read adds exactly its IP field |
| ClientCounts.UasReadSnoc | analyse_clients.py:32-34 | a read adds its User-Agent to its own IP's set only |
| ClientCounts.UniqueIp | analyse_clients.py:1-14 | the number of distinct IP fields among the reads; none when `lines` is not positive |
| ClientCounts.IpWithMultipleUa | analyse_clients.py:17-35 | IndexError exactly when a read lacks field 5; otherwise the number of IPs read with at least two User-Agents |
| ClientCounts.IpsReadSize | analyse_clients.py:10-13 | there are at most as many IPs as reads, and at least one after a read |
| ClientCounts.CountsBounded | analyse_clients.py:1-35 | IPs with several User-Agents ≤ distinct IPs ≤ max(lines, 0), and at least one IP once a line is read |
| ClientCounts.PastEnd | analyse_clients.py:26-30 | reading past the end counts the empty IP, and the multi-User-Agent count raises IndexError |
| ClientCounts.AllFieldsPresent | analyse_clients.py:30 | when every line has at least five `"`, no IndexError is raised |

## Left out

- File I/O is not modelled. Neither is the timestamp regex with `strptime`, `timestamp()` and `mktime`. The scripts' pipelines take requests already split into IP, User-Agent and a timestamp in whole seconds. So the IndexError of a line without a timestamp, and the field errors inside those pipelines, are not modelled. `LineFields` and `ClientCounts` model the field extraction itself.
- Writing the JSON and CSV files is not modelled. The dumped dictionaries and the joined rows are the results. JSON key order is not modelled for `parse_interval.py` and `parse_deviation.py`, whose results are maps. Dictionary insertion order is modelled in `parse_log.py`, where it decides the row order.
- Floats are modelled as reals, and `math.sqrt` is kept symbolic as its radicand. Rounding is not modelled.
- `parse.py:6-30` repeats `analyse_clients.py` word for word. It is modelled once, in `ClientCounts`.
- `ts is session[-1]` at parse_log.py:74 compares object identity. It is modelled as "the last index". An equal integer that is a different object earlier in the session is not modelled.
- `pd.merge` is modelled as an inner join on (IP, UA, Session) in the left table's order (`SessionTable.Merge`). Its column naming and dtypes are not modelled. On tables from empty dictionaries, the join is modelled as KeyError.
- The dead branch at parse_log.py:88-90 is not modelled as reachable. A gap inside a session is always short, so that branch never runs.
- IntervalCounter.AppendAll: it requires a non-zero interval. `CountLines` reports the ZeroDivisionError of a zero interval before the loop is reached.
- RequestRate.SessionRpi: it requires a non-empty session and a non-zero interval. Segmentation only makes non-empty sessions, and `ParseLog.RpiStage` reports ZeroDivisionError for a zero interval.
- RequestRate.ClientRpi: it has the same requirements as `SessionRpi`, for the same reason.
- RequestRate.BucketsPartitionSession: it is stated for a positive interval only. For an interval of zero or less the first bucket holds no request (RequestRate.NonPositiveIntervalFirstEmpty), and the source then divides by a non-positive interval.
- RequestRate.BucketCountBound: it is stated for a positive interval and sorted timestamps only.
- TimingStats.ClientMeans: it requires every present Diff entry to be non-empty. `ParseLog.DiffItemsNonEmpty` shows that the diff stage never makes an empty one, so the division at parse_log.py:102 cannot fail.
- The `__main__` blocks with their argument parsing, and the context scripts `cluster.py` and `cluster_dbscan.py`, are not part of this model.
