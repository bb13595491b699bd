# Vehicle counting pipeline — a verified model

This project models, in Dafny, the bookkeeping core of a vehicle-counting
pipeline that watches a YouTube live stream. It covers two historical collector
scripts and the aggregation behind the dashboard page.

- **`detect_vehicles.py`** is the newer collector. It runs a `while True` loop.
  Each pass resolves the stream url, grabs one frame sized by the first video
  stream that ffprobe lists, and counts the detections per name. It then
  inserts one wide record per frame (name → count, plus `date`) and sleeps.
  Module `DetectVehicles`.
- **`vehicle_detector.py`** is the older collector. It runs on a `sched`
  scheduler. Each run grabs a frame of the fixed size 1080×1920. Only when the
  model reports at least one detection does it append long-format rows
  `(object_type, object_count, date)`, and it re-enters itself 30 s after it
  finishes. Module `VehicleDetector`.
- **`app/run.py`, `index()` lines 29–39** compute the dashboard figures. They
  take the per-record totals over car, motorcycle, bus and truck; the mean
  total per hour of day, pooled over all days; a fixed −6 hour relabelling;
  and each category's share of the grand total. Module `Report`.

Shared pieces:
- `Resolve` is `get_yt_dl_url`, which is identical in both scripts.
- `Frames` covers the choice of the first video stream and the numpy reshape
  of the raw rgb24 buffer.
- `Counting` covers `value_counts().to_dict()` as the map `ValueCounts`, and
  the sorted `groupby(...).count()` as the tally `TallyOf`, in Python's string
  order; `ValueCountsAgree` ties the two. pandas orders `value_counts` by
  descending count; the map keeps no order, because the record is inserted by
  key.
- `Media` holds the shared value types.
- `Wrappers` holds `Option` and `Result`.

The two loops are imperative. `DetectVehicles.RunMain` and
`VehicleDetector.Serve` are methods over `Table` and `Scheduler` classes whose
fields they update. What the outside world supplies becomes input sequences:
- for each pass, the extract result, the decoded bytes, the probe, the clock
  and the model's detections;
- for each scheduled run, how long it takes.

Each method is proved against a specification function:
- `RecordsOf` and `SleepsOf` for the newer loop;
- `Schedule` over `Steps` for the older one.

Lemmas then state what those functions promise.

Exceptions become values: each collector stops at the first one, as the
source does. The errors are:
- `EmptyPlaylist`: `entries[0]` on an empty list;
- `MissingUrl`: a missing `url` key;
- `NoVideoStream`: no video stream in the probe;
- `FrameSizeMismatch`: a reshape of a buffer of the wrong length;
- `MissingNameColumn`: a groupby on a frame built from no detections.

The model keeps the following behaviours of the code, although they are easy
to misread as something else:
- Neither collector catches an exception. The first failing pass ends the
  loop and the process; no later cycle runs.
- The newer loop sleeps `30 - second % 30` of the *capture* second. That is
  always 1..30 s, it ignores processing time, and nothing is clamped to zero.
- A name that was not detected has no key in the newer record, so its column
  is NULL rather than zero. The detected names are not filtered against a
  vocabulary here, because the class filter sits in the model call.
- The older collector persists only frames with detections. It writes a long
  format, not the wide one the page reads, so `Report` reads the newer
  collector's records back (`Report.Stored`).
- The page buckets by whole stored hour and reports only the mean. It
  subtracts a fixed 6 from the hour with no wrap, so labels run from −6 to 17.
  It does not convert time zones or use 30-minute buckets.
- The category shares divide by the grand total unguarded, so with nothing
  counted every share is NaN.

Means and shares are kept as exact fractions (`Report.Fraction`), the values
that the page's floating-point division rounds.

## Model

| member | source | states |
|---|---|---|
| Resolve.VideoUrlOutcome | detect_vehicles.py:37-46 | with `entries`, the url is that of `entries[0]`, otherwise the result's own; `EmptyPlaylist` exactly for an empty entry list; `MissingUrl` exactly when the chosen video has no url |
| Resolve.VideoUrl | detect_vehicles.py:37-46 | `get_yt_dl_url`'s choice of video; specified by `VideoUrlOutcome`, `VideoUrlFound` and `PlaylistResolvesToFirstEntry` |
| Resolve.UrlOf | detect_vehicles.py:44 | `video['url']`, raising KeyError when absent; specified by `VideoUrlOutcome` (the `MissingUrl` case) and `PlaylistResolvesToFirstEntry` |
| Resolve.VideoUrlFound | vehicle_detector.py:41-50 | the older copy of the same function: a url is returned exactly when the chosen video (first entry, or the result itself) carries one |
| Resolve.PlaylistResolvesToFirstEntry | detect_vehicles.py:37-44 | for a playlist, the url is that of the first entry (`entries[0]['url']`), whatever url the playlist carries and whether or not the entry is itself a playlist |
| Frames.FirstVideo | detect_vehicles.py:76 | the position of the first stream whose codec type is video, with no video stream before it; `None` exactly when no stream is video |
| Frames.Rows | detect_vehicles.py:80 | grouping a buffer of height·width·3 bytes gives exactly `height` rows of `width` pixels |
| Frames.Reshape | detect_vehicles.py:80 | succeeds exactly when the buffer holds height·width·3 bytes, with an image of that shape whose flattening is the buffer; otherwise `FrameSizeMismatch` |
| Frames.ReshapeRoundTrip | detect_vehicles.py:80 | flattening the reshaped image gives back the buffer |
| Frames.FlattenRoundTrip | detect_vehicles.py:80 | every image of a given shape is the reshape of its own bytes |
| Frames.RowRoundTrip | detect_vehicles.py:80 | grouping one row's bytes into pixels and flattening them again loses nothing |
| Frames.FlattenRowRoundTrip | detect_vehicles.py:80 | flattening a row of pixels and regrouping the bytes gives back the row |
| Frames.PixelAt | detect_vehicles.py:80 | pixel (i, j) of the reshaped frame is bytes 3(i·width+j) to 3(i·width+j)+2 of the buffer: row-major, three channels |
| Counting.BeforeIrreflexive | vehicle_detector.py:96 | Python's string order used by the groupby sort is irreflexive |
| Counting.BeforeTransitive | vehicle_detector.py:96 | that order is transitive |
| Counting.BeforeTotal | vehicle_detector.py:96 | that order is total on distinct strings |
| Counting.AddCounts | vehicle_detector.py:95-96 | counting one more name keeps the groups strictly ascending and positive, adds one to that name's group and to no other, and adds one to the sum |
| Counting.TallyOf | vehicle_detector.py:95-96 | the groups of a name list are strictly ascending and positive, each name's group has its number of occurrences, and the sizes add up to the list's length |
| Counting.GroupsAreTheDistinctNames | vehicle_detector.py:95-100 | there is a group for a name exactly when the name occurs, and each group's size is that name's number of occurrences |
| Counting.OccurrencesPositive | detect_vehicles.py:157 | a name occurs a positive number of times exactly when it is in the list |
| Counting.ValueCounts | detect_vehicles.py:157 | `value_counts().to_dict()` has a key exactly for each name that occurs, mapped to its positive number of occurrences |
| Counting.ValueCountsAgree | detect_vehicles.py:157 | the dictionary and the sorted tally agree key by key, and the counts add up to the number of names |
| DetectVehicles.GrabFrame | detect_vehicles.py:49-82 | with no video stream, `NoVideoStream`; otherwise success exactly when the buffer holds height·width·3 bytes of the first video stream, with an image of that shape made of the buffer and the capture instant as timestamp; else `FrameSizeMismatch` |
| DetectVehicles.DetectionRecordMeans | detect_vehicles.py:157-158 | the record has `date` set to the capture instant and, besides it, a key exactly for each detected name, holding that name's positive number of detections |
| DetectVehicles.DetectionRecord | detect_vehicles.py:157-158 | the record built for one frame; specified by `DetectionRecordMeans` and `EmptyFrameRecord` |
| DetectVehicles.EmptyFrameRecord | detect_vehicles.py:157-158 | with no detections the record holds `date` alone |
| DetectVehicles.Table.Insert | detect_vehicles.py:163 | the insert appends exactly that record |
| DetectVehicles.SaveDetections | detect_vehicles.py:144-163 | appends exactly one record, the frame's detection record, and changes nothing else |
| DetectVehicles.SleepSeconds | detect_vehicles.py:185 | the sleep lies in 1..30 and ends on a multiple of 30 s past the capture second |
| DetectVehicles.SleepReachesNextMark | detect_vehicles.py:185 | the sleep is the only duration in 1..30 that reaches the next half-minute mark |
| DetectVehicles.SleepDependsOnPhase | detect_vehicles.py:185 | the sleep depends on the capture second only through its place in the half minute, not on processing time |
| DetectVehicles.CycleErrorMeans | detect_vehicles.py:174-177 | a pass raises nothing exactly when its url resolves and its frame is grabbed |
| DetectVehicles.CycleError | detect_vehicles.py:175-177 | the exception one pass raises, if any; specified by `CycleErrorMeans` |
| DetectVehicles.RunCycle | detect_vehicles.py:175-185 | one pass raises the pass's error, if any, and then inserts nothing; otherwise it inserts the frame's record and sleeps `SleepSeconds` of the capture second |
| DetectVehicles.RunMain | detect_vehicles.py:166-185 | runs passes until one raises: every completed pass raised nothing and inserted exactly its own record, with or without detections, in order, and slept its own sleep; the loop ends early exactly when a pass raised, with that pass's error |
| VehicleDetector.GrabFrame | vehicle_detector.py:53-68 | succeeds exactly on a buffer of 1080·1920·3 = 6 220 800 bytes, with a 1080×1920 image made of the buffer; otherwise `FrameSizeMismatch` |
| VehicleDetector.ObjectCountsMeans | vehicle_detector.py:93-102 | one row per distinct detected name, in ascending name order, each with that name's positive number of detections, all with the same date |
| VehicleDetector.ObjectCounts | vehicle_detector.py:93-102 | the long-format rows of one frame; specified by `ObjectCountsMeans` and `ObjectCountsSum` |
| VehicleDetector.ObjectCountsSum | vehicle_detector.py:95-101 | the object counts of one frame add up to the number of its detections |
| VehicleDetector.Table.Append | vehicle_detector.py:103 | `to_sql(..., if_exists='append')` appends exactly those rows |
| VehicleDetector.SaveDetections | vehicle_detector.py:92-104 | on no detections the groupby raises and nothing is written; otherwise exactly the frame's object counts are appended |
| VehicleDetector.Next | vehicle_detector.py:32 | the scheduler takes the earliest event, by time and then priority, and the first one entered among equals (the `sched` tie-break from Python 3.10 on; never observable here, since at most one event is queued) |
| VehicleDetector.Scheduler.constructor | vehicle_detector.py:32 | a fresh scheduler has its start clock and an empty queue |
| VehicleDetector.Scheduler.Enter | vehicle_detector.py:116 | `enter(delay, priority, ...)` queues one event due `delay` seconds from the current clock |
| VehicleDetector.Scheduler.Work | vehicle_detector.py:107-114 | a run's own work advances the clock and leaves the queue alone |
| VehicleDetector.Scheduler.TakeNext | vehicle_detector.py:122 | `run()` removes the next event from the queue and sleeps until it is due |
| VehicleDetector.RunErrorMeans | vehicle_detector.py:108-109 | a run raises nothing exactly when its url resolves and its frame reshapes, and raises `FrameSizeMismatch` exactly when the url resolves but the reshape fails |
| VehicleDetector.RunError | vehicle_detector.py:108-109 | the exception one run raises, if any; specified by `RunErrorMeans` |
| VehicleDetector.PersistedRowsCount | vehicle_detector.py:112-114 | the rows one run writes count its detections: none when it has none |
| VehicleDetector.PersistedRows | vehicle_detector.py:112-114 | the rows a run that raises nothing writes; specified by `PersistedRowsCount` and `RowsCountDetections` |
| VehicleDetector.RowsCountDetections | vehicle_detector.py:112-114 | over any number of runs, the written object counts add up to the runs' detections: each detection is counted once |
| VehicleDetector.RunObjectDetector | vehicle_detector.py:107-116 | a run takes its duration and raises its error, if any; otherwise it appends its rows (nothing when it has no detections) and enters exactly one new run due 30 s after it ends with priority 1; a raising run enters nothing |
| VehicleDetector.Dispatch | vehicle_detector.py:122 | one turn of the scheduler with one run pending: the run starts when it is due, and the queue is left empty when the run raised and holds one run otherwise |
| VehicleDetector.Schedule | vehicle_detector.py:107-122 | the reference outcome of serving a sequence of runs; specified by the `Schedule…` lemmas below, and `Serve` is proved equal to it |
| VehicleDetector.ScheduleLength | vehicle_detector.py:107-122 | every run is dispatched unless an earlier one raised, and a raising run is itself dispatched |
| VehicleDetector.ScheduleFirst | vehicle_detector.py:121 | the first run is dispatched 30 s after start-up |
| VehicleDetector.ScheduleGap | vehicle_detector.py:116 | each later run is dispatched 30 s after the previous one ends, so the cadence drifts with run time |
| VehicleDetector.ScheduleClock | vehicle_detector.py:107-122 | the clock ends when the last dispatched run ends |
| VehicleDetector.ScheduleFailure | vehicle_detector.py:107-122 | a failure is the error of the last dispatched run |
| VehicleDetector.SchedulePassed | vehicle_detector.py:107-116 | every dispatched run except a failing last one raised nothing |
| VehicleDetector.SchedulePending | vehicle_detector.py:116-122 | after the last dispatch exactly one run is pending, due 30 s later with priority 1, unless a run raised; then nothing is pending |
| VehicleDetector.ScheduleRows | vehicle_detector.py:112-114 | the rows written are those of the dispatched runs that raised nothing, in order |
| VehicleDetector.Serve | vehicle_detector.py:119-122 | the program's entry: enters the first run 30 s ahead and dispatches until a run raises; the dispatch times, the failure, the final queue and clock, and the appended rows are those of `Schedule` over the runs' steps |
| Report.TotalBounds | app/run.py:31-32 | each category count is part of the total, and the total is zero exactly when every category counts zero |
| Report.TotalIsRowSum | app/run.py:31-32 | `total` is the row-wise sum over the four listed columns, with NULL counting zero |
| Report.Total | app/run.py:32 | a record's `total`; specified by `TotalBounds` and `TotalIsRowSum` |
| Report.HourCountPositive | app/run.py:33 | an hour has a positive record count exactly when some record was captured in that hour |
| Report.EmptyHourSum | app/run.py:33 | an hour without records adds nothing to the sum |
| Report.HourCount | app/run.py:33 | the size of an hour's group; specified by `HourCountPositive` and `HourlyMeansPool` |
| Report.HourSum | app/run.py:33 | the sum of an hour's totals; specified by `EmptyHourSum` and `HourlyMeansPool` |
| Report.HourlyMeans | app/run.py:33 | one bucket per hour of day that has records, pooled over all days, in strictly ascending hour order, each holding the hour's sum of totals over its number of records; at most 24 buckets |
| Report.HourlyMeansPool | app/run.py:33 | every record lands in exactly one bucket: the numerators add up to the sum of all totals and the denominators to the number of records |
| Report.Relabel | app/run.py:34-35 | each plotted label is the stored hour minus 6, in −6..17, with the mean unchanged |
| Report.RelabelKeepsOrder | app/run.py:35 | the shift keeps the ascending order, and a label is negative exactly for the stored hours 0–5 (no wrap) |
| Report.RelabelledMeans | app/run.py:33-35 | the plotted series ascends in label; a label is present exactly when hour label+6 has records, and carries that hour's mean |
| Report.GrandTotalIsTotals | app/run.py:37-39 | the sum of the four column sums is the sum of the row totals |
| Report.ColumnSum | app/run.py:37 | a category column's sum; specified by `GrandTotalIsTotals` and `CategoryShares` |
| Report.GrandTotal | app/run.py:37-39 | the sum of the four column sums; specified by `GrandTotalIsTotals`, `CategoryShares` and `SharesSumToOne` |
| Report.Divide | app/run.py:39 | the unguarded float division; specified by `CategoryShares` (NaN exactly when the grand total is zero) |
| Report.CategoryShares | app/run.py:37-39 | exactly four shares in the order car, motorcycle, bus, truck; with a positive grand total each is its column sum over the grand total, within [0, 1]; every share is NaN exactly when the grand total is zero |
| Report.SharesSumToOne | app/run.py:39 | with a positive grand total the four shares share its denominator and their numerators add up to it, so they sum to one |
| Report.Index | app/run.py:29-39 | the page's figures: the relabelled hourly series as stated by `RelabelledMeans` and the shares of `CategoryShares` |
| Report.EmptyStore | app/run.py:29-39 | an empty store plots no hourly point and four NaN shares |
| Report.SavedColumn | app/run.py:29-32 | a category column read back from a newer collector's record is NULL exactly when the name was not detected, and counts its detections otherwise |
| Report.SavedFrameTotal | app/run.py:29-32 | a newer collector's record reads back with its capture instant, NULL exactly where nothing was detected, and a total that counts the detections of the four categories |
| Report.Stored | app/run.py:29-30 | a saved record read back as a row; specified by `SavedColumn` and `SavedFrameTotal` |

## Left out

- Model inference (`detect_objects`, torch or imageai): the detections a frame yields are an input, together with the class and confidence filters applied inside the model call.
- youtube_dl extraction, ffmpeg decoding and ffprobe: their results are inputs. These are the extract dict (`Resolve.Info`), the decoded bytes and the probe's stream list. Failures inside these libraries are not modelled, only the errors that the code itself raises on their results.
- Image output (`save_image`, `show_image`), the `print` calls, and everything in `index()` after line 39 (plotly figures, JSON, Flask routing and templates): presentation only.
- SQLAlchemy and sqlite: each table is an append-only sequence of records (`Table.rows`). The `id` column, schema reflection, and the effect of a detected name with no matching column are not modelled.
- Report.Stored: reads only the `date` column and the four category columns of a record; a store lacking one of those columns, where pandas would raise, is not modelled.
- Clocks and sleeping: `datetime.now` and the capture instant are inputs. `time.sleep` is not performed; `RunMain` returns the sleep durations it would take. The `sched` clock is advanced by given run durations.
- Timestamp formatting and time zones: a `DateTime` keeps day, hour, minute and second as integers. The `%Y-%m-%d %H:%M:%S` string and its parsing by `pd.to_datetime` are not modelled. The pipeline stores UTC in one collector and local time in the other; the model takes both instants as given.
- The endless loops: both collectors are modelled over a finite sequence of passes or runs, and each stops early at the first exception.
- Report.HourlyMeans and Report.CategoryShares: the means and shares are exact fractions, not the rounded doubles pandas computes.
- DetectVehicles.SleepSeconds: the Python value is the float `30.0 - second % 30.0`. It is modelled as the integer it always equals, because the second is a whole number.
- VehicleDetector.RunObjectDetector: the time a run takes is one input duration, charged before its outcome. Where within the run an exception happens does not change what the model observes.
