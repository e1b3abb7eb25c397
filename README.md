# Burndown report model

The daily burndown report runs once when its module is loaded, on whatever day that is, and then on weekdays (Monday to Friday) at 18:00 on a scheduler; the scheduler never fires at weekends. Each run:

- asks the sprint tracker for the current sprint figures;
- writes them as a snapshot named after the date the module was loaded (`./output/YYYYMMDD_sprint_data.json`), because that date is formatted once, at load;
- reads back the snapshots of every day from the sprint start up to today;
- draws a line chart of the remaining story points against an ideal guideline.

This project models the computational core of that run in Dafny and proves what it computes.

- **Normalisation** of the tracker's answer into the persisted sprint record (module `Snapshot`). It covers:
  - JavaScript truthiness of missing figures;
  - the operator-precedence quirk in `issuesPointSum`;
  - the success envelope, with its `YYYY/MM/DD HH:mm:ss` write stamp.
- **Dates** are day numbers (days since 1970-01-01) over the proleptic Gregorian calendar (module `Calendar`).
  - moment's `add`/`subtract` of whole days and its `YYYYMMDD` and `MM/DD` formats are concrete functions (module `DateFormat`).
  - For years 0..9999 the key is proved to be eight digits that read back as the date.
  - In that range a later date is proved to have a string-greater key, and hence distinct days have distinct keys. The converse direction, from key order back to date order, is not stated.
- **The snapshot directory** is a class whose map from day to record is updated in place by the write (module `OutputStore`).
  - Each day's file is `SnapshotPath(Key(day))`.
  - For four-digit years, distinct days are proved to have distinct file names, and key order carries over to file-name order.
  - The read `getJsonAsync(i)` looks up the record of the day `i` days before today, and rejects when that file is missing (module `GetJson`).
- **The burndown series** (module `Burndown`):
  - The elapsed whole days since the sprint start, truncated as moment's `diff` truncates.
  - The offset array `0..d`, built by a loop and then reversed in place.
  - The lookups, run one after another: all of them resolve, or the series stays empty (`Promise.all` rejects and `yValues` keeps its initial `[]`).
  - The day labels, the guideline `goal - floor(goal * i / diff)` and the title.
  - The whole run, `SendChart`: a method that writes the snapshot under the load day's key and then returns the chart configuration computed, for today, from the directory as it now is.

Where the code's behaviour may surprise a reader:

- `issuesPointSum` is not the sum of completed and not-completed points. `c ? c : 0 + n ? n : 0` parses as `c ? c : ((0 + n) ? n : 0)`.
- A missing snapshot does not abort the run with an error naming the date. The remaining-points series is simply empty.
- A sprint that has not started is not an error.
  - For a start date of tomorrow, the 18:00 run truncates the elapsed time to 0 days and still reads today's snapshot.
  - For a start date two or more days ahead, the series is empty.
- The remaining-points series is not clamped to the end date. After the end date it grows one entry per day beyond the labels.
- The snapshot key is the load day, not the run day. A process that stays loaded past its first day writes every later run under that first day's key. Today's file is then missing, so once the sprint has started the series is empty (`StaleKeyEmptiesSeries`).
- The scheduler writes no weekend snapshots. The only weekend snapshot is the one the load-time run writes when the process is started on a Saturday or Sunday, and every later run of that process rewrites that same weekend file. So once a sprint spans a weekend, a missing day normally lies between the start and today, and the series is empty (`BurndownGap`).
- A sprint whose end date equals its start date is not special-cased. The guideline is the single value `goal - Math.floor(0 / 0)`, which is NaN. The model's guideline values are therefore `Num(n) | NaN`.

## Model

| member | source | states |
|---|---|---|
| Snapshot.OrZero | app.js:44 | `f ? f : 0` is the field's value when present, else 0 (a present 0 gives 0 either way) |
| Snapshot.IssuesPointSum | app.js:49-54 | the completed sum when truthy, else the not-completed sum or 0; when both are truthy it is never their sum |
| Snapshot.Normalise | app.js:42-58 | id, name and dates copied; goal and not-completed points default to 0 when missing; point sum as written |
| Snapshot.NormaliseNonNegative | app.js:42-58 | non-negative tracker figures give non-negative goal, point sum and remaining points |
| Snapshot.SuccessEnvelope | app.js:65-70 | the stored record has status code 0, text `success`, the normalised sprint unchanged and the write stamp |
| Snapshot.UpdateStamp | app.js:68 | the stamp reads `…/MM/DD HH:mm:ss`: the two slashes, the space and the two colons sit at their places counted from the end, whatever the year's width (field values in `UpdateStampTime`) |
| Snapshot.DateStamp | app.js:68 | the `YYYY/MM/DD` part has slashes three and six characters from its end, whatever the year's width (its field values are stated by `DateStampDigits`) |
| Snapshot.ClockStamp | app.js:68 | the `HH:mm:ss` part is 8 characters with colons at positions 2 and 5 |
| Snapshot.UpdateStampTime | app.js:68 | for a four-digit year the stamp is 19 characters, its `YYYY`, `MM`, `DD` fields read back as the run's date and its `HH`, `mm`, `ss` fields as the run's time of day |
| Snapshot.ClockStampTime | app.js:68 | the `HH:mm:ss` part is 8 characters whose hour, minute and second fields recompose the seconds since midnight |
| Snapshot.DateStampDigits | app.js:68 | for a four-digit year the `YYYY/MM/DD` part is 10 characters whose year, month and day fields read back as the date |
| Calendar.DaysInMonth | app.js:92 | every month has 28 to 31 days |
| Calendar.Next | app.js:92 | the day after a valid date is a valid, later date |
| Calendar.Prev | libs/getJson.js:22 | the day before a valid date is a valid, earlier date |
| Calendar.NextPrevInverse | app.js:92 | stepping a day forward then back, or back then forward, returns the date |
| Calendar.DateOf | app.js:34 | every day number denotes a valid calendar date |
| Calendar.AddDays | app.js:92 | adding days to a valid date gives a valid date |
| Calendar.SubtractDays | libs/getJson.js:22 | subtracting days from a valid date gives a valid date |
| Calendar.DateOfSucc | app.js:92 | the date of day `n + 1` is the calendar successor of the date of day `n` |
| Calendar.DateOfAdd | app.js:92 | the date `i` days after day `n` is moment's `add(i, "days")` on the date of day `n` |
| Calendar.DateOfSubtract | libs/getJson.js:22 | the date of day `n - i` is moment's `subtract(i, "days")` on the date of day `n` |
| Calendar.OrdinalOrder | libs/getJson.js:22 | calendar order of valid dates coincides with the order of `year*10000 + month*100 + day` |
| Calendar.DateOfIncreasing | libs/getJson.js:22 | a later day number has a strictly later calendar date |
| Calendar.DateOfInjective | libs/getJson.js:22 | distinct day numbers have distinct dates |
| DateFormat.ZeroFillShape | app.js:34 | moment's zero-filled number is all digits, exactly `w` of them when the number fits |
| DateFormat.ZeroFillValue | app.js:34 | a zero-filled number reads back as the number |
| DateFormat.DecimalValueBound | libs/getJson.js:22 | `w` digits denote a number below `10^w` |
| DateFormat.DecimalValueConcat | libs/getJson.js:22 | appending digits shifts the left part by the right part's width |
| DateFormat.DecimalValueInjective | libs/getJson.js:22 | equally long digit strings denoting one number are equal |
| DateFormat.DigitStringOrder | libs/getJson.js:22 | for equally long digit strings, numeric order implies string order |
| DateFormat.LexLessEmbed | libs/getJson.js:20-24 | string order of equally long strings survives a common prefix and suffix |
| DateFormat.Key | app.js:34 | for a four-digit year the `YYYYMMDD` key has 8 characters and reads as `year*10000 + month*100 + day` |
| DateFormat.MonthDay | app.js:92 | an `MM/DD` label is 5 characters with `/` in the middle |
| DateFormat.MonthDayOf | app.js:181-183 | the same for any valid date, as the title formats the start and end dates |
| DateFormat.KeyDigits | app.js:34 | a `YYYYMMDD` key of a four-digit year is 8 digits reading as `year*10000 + month*100 + day` |
| DateFormat.KeyOfDigits | app.js:34 | the same for any valid date with a four-digit year |
| DateFormat.FieldsCompose | app.js:34 | 4, 2 and 2 digits side by side read as one eight-digit number |
| DateFormat.KeyOrder | libs/getJson.js:22 | a later day has a string-greater key (both eight characters): a larger offset reads an earlier, smaller key |
| DateFormat.KeyInjective | libs/getJson.js:22 | distinct days of four-digit years have distinct keys, so distinct offsets read distinct files |
| DateFormat.MonthDayDigits | app.js:92 | an `MM/DD` label is 5 characters with `/` in the middle, reading back as the month and day |
| OutputStore.SnapshotPath | libs/getJson.js:21-23 | the path a snapshot is read from lies in `./output/`, ends in `_sprint_data.json`, and is 26 characters longer than its key |
| OutputStore.SnapshotPathInjective | app.js:74 | distinct keys name distinct snapshot files |
| OutputStore.SnapshotPathOrder | libs/getJson.js:20-24 | file names keep the string order of equally long keys |
| OutputStore.SnapshotFilesDistinct | app.js:74 | two different days of four-digit years never share a snapshot file |
| OutputStore.OutputDir.WriteSnapshot | app.js:76-82 | writing a day's snapshot replaces that day's record and leaves every other day's unchanged |
| GetJson.GetJsonAsync | libs/getJson.js:19-25 | the read of offset `i` rejects exactly when day `today - i` has no file, and otherwise resolves to its stored record unchanged |
| GetJson.ReadsTodaysWrite | libs/getJson.js:20-24 | when the write key is today's, offset 0 reads back exactly the record the run wrote |
| GetJson.OtherKeyLeavesTodaysRead | libs/getJson.js:20-24 | a write under another day's key leaves the read of offset 0 as it was |
| Burndown.TruncDiv | app.js:99 | the quotient truncates toward zero: the multiple of the divisor it gives lies between zero and the dividend, within one divisor of it |
| Burndown.ElapsedDaysValue | app.js:99 | from the start day on the count is `today - start`; for a future start the truncation gives `today - start + 1` after midnight |
| Burndown.OffsetsOldestFirst | app.js:98-102 | the reversed offsets are `d, d-1, ..., 0`, and empty for `d < 0` |
| Burndown.BuildOffsets | app.js:98-101 | the loop fills a fresh array with `0..d` |
| Burndown.ReverseInPlace | app.js:102 | `reverse()` leaves the array holding its old contents backwards |
| Burndown.RemainingSeries | app.js:102-110 | the series is empty or has one value per offset, and value `k` exists only if lookup `k` resolved and is its remaining points |
| Burndown.CollectRemaining | app.js:102-110 | the lookups in order yield every remaining-points figure when all resolve, else `[]` |
| Burndown.SeriesComplete | app.js:102-107 | with all lookups resolving, entry `k` is the figure read at offset `d - k` |
| Burndown.SeriesGap | app.js:103-110 | one rejected lookup in `0..d` empties the series |
| Burndown.SeriesBeforeStart | app.js:99-101 | a negative day count gives no offsets and an empty series |
| Burndown.SeriesLengthFollowsResolution | app.js:103-110 | which lookups resolve alone decides the series' length |
| Burndown.ReadSnapshotAt | libs/getJson.js:19-25 | the lookup at offset `i` resolves exactly when day `today - i` is stored, to that day's figure |
| Burndown.BurndownAligned | app.js:96-110 | with a complete history, the series has `today - start + 1` entries, entry `k` is day `start + k`'s figure, and the last is today's |
| Burndown.BurndownGap | app.js:103-110 | a missing day anywhere from the start to today empties the series: no partial series and no skipped day |
| Burndown.BurndownAllOrNothing | app.js:103-110 | once started, the series is non-empty exactly when every day from the start to today is stored |
| Burndown.BurndownBeforeStart | app.js:99 | a sprint starting tomorrow reads only today's snapshot; one starting later reads nothing |
| Burndown.XLabels | app.js:90-93 | one label per day from the start to the end, each a five-character `MM/DD` |
| Burndown.BuildXLabels | app.js:89-93 | the loop builds exactly the `MM/DD` label of each day from the start to the end |
| Burndown.LabelsSpanSprint | app.js:90-93 | there are `end - start + 1` labels, label `i` being the date `i` calendar days after the start |
| Burndown.LabelAt | app.js:92 | label `i` is `moment(start).add(i, "days").format("MM/DD")` |
| Burndown.LabelsEndpoints | app.js:90-93 | the first label is the start date and the last the end date |
| Burndown.IdealRemaining | app.js:116 | the value is NaN exactly when the sprint lasts zero days, and the goal on the first day otherwise |
| Burndown.Guideline | app.js:113-118 | one value per sprint day; every value is NaN when the end is the start day, none otherwise |
| Burndown.BuildGuideline | app.js:113-118 | the loop builds `goal - floor(goal * i / diff)` for `i` in `0..diff`, and nothing for `diff < 0` |
| Burndown.GuidelineEndpoints | app.js:113-118 | for `diff > 0` there are `diff + 1` numeric values from `goal` down to `0` |
| Burndown.GuidelineNonIncreasing | app.js:114-117 | for `goal >= 0` the guideline never rises and stays within `[0, goal]` |
| Burndown.GuidelineZeroGoal | app.js:114-117 | for `diff > 0`, a zero goal gives an all-zero guideline |
| Burndown.GuidelineSingleDay | app.js:116 | a sprint ending on its start day gets the single value NaN |
| Burndown.GuidelineExample | app.js:116 | goal 20 over 11 intervals: day 5 is `20 - floor(100 / 11) = 11` |
| Burndown.DivMonotone | app.js:116 | flooring division by a positive number is monotone |
| Burndown.MulDivCancel | app.js:116 | `floor(goal * diff / diff) == goal` |
| Burndown.Title | app.js:178-184 | the title is the sprint name followed by `(MM/DD~MM/DD)`: 13 more characters, with the brackets and the tilde in place |
| Burndown.TitleShowsLabelRange | app.js:178-184 | the title is the name followed by the first and last axis labels in `(MM/DD~MM/DD)` |
| Burndown.ChartOf | app.js:125-187 | the chart has one guideline value per label, one label per sprint day, and the legends `Story Points remaining` and `Guideline` |
| Burndown.ChartAligned | app.js:125-147 | mid-sprint with complete history, the remaining line has one value per day so far, each that day's figure, beneath the labels, and the guideline covers every label |
| Burndown.ChartNotClamped | app.js:96-110 | after the end date the remaining line is longer than the labels by the days past the end |
| Burndown.SendChart | app.js:36-118 | the run writes the success envelope of the normalised sprint, stamped with the run time, under the load day's key, and returns the chart computed for today from the updated directory |
| Burndown.SeriesEndsWithWrite | app.js:74-110 | with the write under today's key after a complete history, the series runs from the start to today and ends with the written record's figure |
| Burndown.StaleKeyEmptiesSeries | app.js:34 | when the load day is not today and today has no file, the write does not supply it and the started sprint's series is empty |
| Burndown.LatestPointIsThisRun | app.js:96-110 | when the write key is today's and every earlier sprint day is stored, the chart's last remaining value is the figure this run just wrote |
| Burndown.RerunSameDay | app.js:74-76 | a second run writing under the same key overwrites the first record: same files, as if only the second ran, same series length |

## Left out

- The tracker fetch over the network (`jira-client`). `SendChart` takes the tracker's answer as a parameter. The fetch's failure path is not modelled: the source logs the error and goes on with an empty or partly filled sprint object (a `TypeError` in the callback can stop it after some fields are set). That run still writes a record with code 0 and text `success` around the incomplete sprint, and reading that day back later gives an `undefined` point: a hole in the series, not an empty series.
- Real file I/O. The directory is an in-memory map from the day to the parsed record, and `JSON.stringify` followed by `JSON.parse` is taken as the identity.
  - A `JSON.parse` failure inside the read callback is not caught by the surrounding `try`, so it does not reject the read. The model makes no claim about it.
  - A record missing its `data` field is not modelled either.
- The write is issued with a callback and not awaited, so in the source it races the reads of the same run. The model runs the write before the reads.
- `Promise.all` runs the lookups concurrently. The model runs them one after another; the result is the same because the reads are independent.
- Chart rendering, the canvas styling, the base64 PNG file, the Slack upload and its 3-second wait. Only the labels, the two datasets with their legends, and the title are kept.
- `sendMsg.js`, `libs/consts.js` and the environment loading. They hold no logic of the core.
- moment's clock, time zone and daylight-saving handling. Today is a day number plus a time of day in seconds, and every day has 86400 seconds.
- Story-point figures are integers. The source's floating-point numbers are not modelled, so neither are fractional points nor rounding of large values.
- The sprint record stores its dates as day numbers; the source stores `YYYYMMDD` strings that moment parses back. `DateFormat.KeyDigits` proves these strings name the same date.
- DateFormat.KeyOrder: proved only for years 0..9999. For other years moment writes more than four digits or a sign, and key order can differ from date order (`10000` sorts before `9999`).
- OutputStore.SnapshotFilesDistinct: proved only for years 0..9999; outside that range the directory is still indexed by day.
- Burndown.SendChart: the write key is the load day, a parameter. How long the process stays loaded, and so which day that is, depends on the scheduler (`job.js`) and is not modelled. `LatestPointIsThisRun` and `ReadsTodaysWrite` cover a process loaded on the day of the run; `StaleKeyEmptiesSeries` covers the others.
- The weekday schedule itself (`job.js`) is not modelled. Its effect on the series is the missing-day case of `BurndownGap`.
- The write path of app.js:74 goes through `path.join`, which gives `output/<key>_sprint_data.json` without the leading `./`. The read path of libs/getJson.js:21-23 keeps it. Both name the same file, so the model uses one path per key, `SnapshotPath`.
