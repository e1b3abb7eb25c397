/**
 * The burndown report of one run: the snapshot is written under the key of
 * the day the module was loaded, the remaining-points series is read back day by day from the sprint
 * start to today, the ideal guideline is projected over the sprint, and
 * both are wired with the day labels and the title into a line-chart
 * configuration.
 */
module Burndown {
  import opened Wrappers
  import opened Calendar
  import opened DateFormat
  import opened Snapshot
  import opened OutputStore
  import opened GetJson

  // ---------------------------------------------------------------------
  // Elapsed days since the sprint start

  /** Division that truncates toward zero, as moment's whole-day `diff` does. */
  function TruncDiv(x: int, y: int): (r: int)
    requires y > 0
    ensures x >= 0 ==> 0 <= r * y <= x < r * y + y
    ensures x < 0 ==> r * y - y < x <= r * y <= 0
  {
    var n: nat := if x >= 0 then x else -x;
    FloorDivBounds(n, y);
    assert (-(n / y)) * y == -((n / y) * y);
    if x >= 0 then n / y else -(n / y)
  }

  /** The quotient of a natural number, times the divisor, is the largest multiple not above it. */
  lemma FloorDivBounds(n: nat, y: int)
    requires y > 0
    ensures 0 <= (n / y) * y <= n < (n / y) * y + y
  {
    var q := n / y;
    assert n == q * y + n % y;
    MulMonotone(y, 0, q);
  }

  /**
   * `moment().diff(moment(startDate), "days")`: the time from the start
   * date's midnight to now (`secondsIntoDay` after midnight of `today`),
   * in whole days.
   */
  function ElapsedDays(today: Day, secondsIntoDay: int, start: Day): (r: int)
    requires 0 <= secondsIntoDay < SecondsPerDay
  {
    TruncDiv((today - start) * SecondsPerDay + secondsIntoDay, SecondsPerDay)
  }

  /**
   * From the start day on, the count is the number of days since the start;
   * for a start in the future the truncation rounds toward zero, so a run
   * after midnight sees a start of tomorrow as 0 days away.
   */
  lemma ElapsedDaysValue(today: Day, secondsIntoDay: int, start: Day)
    requires 0 <= secondsIntoDay < SecondsPerDay
    ensures start <= today ==> ElapsedDays(today, secondsIntoDay, start) == today - start
    ensures start > today && secondsIntoDay > 0 ==>
              ElapsedDays(today, secondsIntoDay, start) == today - start + 1
    ensures start > today && secondsIntoDay == 0 ==>
              ElapsedDays(today, secondsIntoDay, start) == today - start
  {
    var k := today - start;
    var x := k * SecondsPerDay + secondsIntoDay;
    if k >= 0 {
      assert x / SecondsPerDay == k;
    } else if secondsIntoDay > 0 {
      assert -x == (-k - 1) * SecondsPerDay + (SecondsPerDay - secondsIntoDay);
      assert (-x) / SecondsPerDay == -k - 1;
    } else {
      assert (-x) / SecondsPerDay == -k;
    }
  }

  // ---------------------------------------------------------------------
  // Offsets of the days to read back

  /** `[0, 1, ..., d]`, empty when `d < 0`. */
  function Ascending(d: int): (r: seq<int>) {
    seq(if d >= 0 then d + 1 else 0, k => k)
  }

  function Reversed(s: seq<int>): (r: seq<int>) {
    seq(|s|, k requires 0 <= k < |s| => s[|s| - 1 - k])
  }

  /** The offsets in the order they are looked up: `[d, d - 1, ..., 0]`. */
  function Offsets(d: int): (r: seq<int>) {
    Reversed(Ascending(d))
  }

  /** Offsets run from the oldest day (`d` days ago) to today (offset 0). */
  lemma OffsetsOldestFirst(d: int)
    ensures |Offsets(d)| == (if d >= 0 then d + 1 else 0)
    ensures forall k :: 0 <= k < |Offsets(d)| ==> Offsets(d)[k] == d - k
    ensures d >= 0 ==> Offsets(d)[0] == d && Offsets(d)[d] == 0
  {
  }

  /** The loop that pushes `0..d` into a fresh array. */
  method BuildOffsets(d: int) returns (a: array<int>)
    ensures fresh(a) && a[..] == Ascending(d)
  {
    var n := if d >= 0 then d + 1 else 0;
    a := new int[n];
    for i := 0 to n
      invariant forall k :: 0 <= k < i ==> a[k] == k
    {
      a[i] := i;
    }
  }

  /** `Array.prototype.reverse`: reverses the array in place. */
  method ReverseInPlace(a: array<int>)
    modifies a
    ensures a[..] == Reversed(old(a[..]))
  {
    var lo, hi := 0, a.Length - 1;
    while lo < hi
      invariant 0 <= lo && 2 * lo <= a.Length && hi == a.Length - 1 - lo
      invariant forall k :: 0 <= k < lo ==> a[k] == old(a[a.Length - 1 - k])
      invariant forall k :: hi < k < a.Length ==> a[k] == old(a[a.Length - 1 - k])
      invariant forall k :: lo <= k <= hi ==> a[k] == old(a[k])
    {
      a[lo], a[hi] := a[hi], a[lo];
      lo, hi := lo + 1, hi - 1;
    }
  }

  // ---------------------------------------------------------------------
  // Reading the series back: `Promise.all` over the lookups

  /** A lookup of the record `i` days before today, as `getJsonAsync` is passed to `map`. */
  type Reader = int -> Result<Envelope, ReadError>

  /** `getJsonAsync` against the store as it is now. */
  function ReadSnapshot(files: map<Day, Envelope>, today: Day): (r: Reader) {
    i => GetJsonAsync(files, today, i)
  }

  /** Every lookup resolves. */
  predicate AllFound(read: Reader, offsets: seq<int>) {
    forall k :: 0 <= k < |offsets| ==> read(offsets[k]).Ok?
  }

  /**
   * The remaining points of every looked-up day, in lookup order, when all
   * lookups resolve; otherwise the series stays empty.
   */
  function RemainingSeries(read: Reader, offsets: seq<int>): (r: seq<int>)
    ensures r == [] || |r| == |offsets|
    ensures forall k :: 0 <= k < |r| ==>
              read(offsets[k]).Ok? && r[k] == read(offsets[k]).value.data.notCompletedIssuesPointSum
  {
    if AllFound(read, offsets) then
      seq(|offsets|, k requires 0 <= k < |offsets| && AllFound(read, offsets) =>
        read(offsets[k]).value.data.notCompletedIssuesPointSum)
    else
      []
  }

  /** The lookups one after the other; the first that rejects abandons the whole series. */
  method CollectRemaining(read: Reader, offsets: seq<int>) returns (yValues: seq<int>)
    ensures yValues == RemainingSeries(read, offsets)
  {
    var values := [];
    for k := 0 to |offsets|
      invariant |values| == k
      invariant forall j :: 0 <= j < k ==> read(offsets[j]).Ok?
      invariant forall j :: 0 <= j < k ==> values[j] == read(offsets[j]).value.data.notCompletedIssuesPointSum
    {
      var r := read(offsets[k]);
      if r.Err? {
        return [];
      }
      values := values + [r.value.data.notCompletedIssuesPointSum];
    }
    yValues := values;
  }

  /** With every lookup from offset `d` down to 0 resolving, entry `k` holds offset `d - k`... */
  lemma SeriesComplete(read: Reader, d: int)
    requires d >= 0
    requires forall i :: 0 <= i <= d ==> read(i).Ok?
    ensures |RemainingSeries(read, Offsets(d))| == d + 1
    ensures forall k :: 0 <= k <= d ==>
              RemainingSeries(read, Offsets(d))[k] == read(d - k).value.data.notCompletedIssuesPointSum
  {
    OffsetsOldestFirst(d);
    assert AllFound(read, Offsets(d));
  }

  /** ... and one rejected lookup anywhere in the range leaves the whole series empty. */
  lemma SeriesGap(read: Reader, d: int, i: int)
    requires 0 <= i <= d
    requires read(i).Err?
    ensures RemainingSeries(read, Offsets(d)) == []
  {
    OffsetsOldestFirst(d);
    assert Offsets(d)[d - i] == i;
  }

  /** No offsets, no lookups: a negative day count gives an empty series. */
  lemma SeriesBeforeStart(read: Reader, d: int)
    requires d < 0
    ensures Offsets(d) == [] && RemainingSeries(read, Offsets(d)) == []
  {
  }

  /** Whether the series is empty depends only on which lookups resolve, not on what they return. */
  lemma SeriesLengthFollowsResolution(r1: Reader, r2: Reader, offsets: seq<int>)
    requires forall i :: r1(i).Ok? <==> r2(i).Ok?
    ensures |RemainingSeries(r1, offsets)| == |RemainingSeries(r2, offsets)|
  {
    forall k | 0 <= k < |offsets|
      ensures r1(offsets[k]).Ok? <==> r2(offsets[k]).Ok?
    {
      var i := offsets[k];
      assert r1(i).Ok? <==> r2(i).Ok?;
    }
    assert AllFound(r1, offsets) <==> AllFound(r2, offsets);
  }

  /** Every day from `first` to `last` has a snapshot in the store. */
  predicate HistoryComplete(files: map<Day, Envelope>, first: Day, last: Day) {
    forall day :: first <= day <= last ==> day in files
  }

  /** The remaining points recorded for a day that has a snapshot. */
  function RecordedRemaining(files: map<Day, Envelope>, day: Day): (r: int)
    requires day in files
  {
    files[day].data.notCompletedIssuesPointSum
  }

  /** The lookup at offset `i` resolves exactly when day `today - i` has a snapshot, and then to its figure. */
  lemma ReadSnapshotAt(files: map<Day, Envelope>, today: Day, i: int)
    ensures ReadSnapshot(files, today)(i).Ok? <==> today - i in files
    ensures ReadSnapshot(files, today)(i).Ok? ==>
              ReadSnapshot(files, today)(i).value.data.notCompletedIssuesPointSum == RecordedRemaining(files, today - i)
  {
  }

  /** The y values of the chart: every day from the sprint start up to today. */
  function YValues(files: map<Day, Envelope>, today: Day, secondsIntoDay: int, start: Day): (r: seq<int>)
    requires 0 <= secondsIntoDay < SecondsPerDay
  {
    RemainingSeries(ReadSnapshot(files, today), Offsets(ElapsedDays(today, secondsIntoDay, start)))
  }

  /**
   * Once the sprint has started and every day has a snapshot, entry `k` is
   * the figure of day `start + k`; the last entry is today's.
   */
  lemma BurndownAligned(files: map<Day, Envelope>, today: Day, secondsIntoDay: int, start: Day)
    requires 0 <= secondsIntoDay < SecondsPerDay
    requires start <= today
    requires HistoryComplete(files, start, today)
    ensures var ys := YValues(files, today, secondsIntoDay, start);
            |ys| == today - start + 1
            && (forall k :: 0 <= k < |ys| ==> ys[k] == RecordedRemaining(files, start + k))
            && ys[|ys| - 1] == RecordedRemaining(files, today)
  {
    ElapsedDaysValue(today, secondsIntoDay, start);
    var d, read := today - start, ReadSnapshot(files, today);
    forall i | 0 <= i <= d
      ensures read(i).Ok?
    {
      ReadSnapshotAt(files, today, i);
    }
    SeriesComplete(read, d);
    var ys := YValues(files, today, secondsIntoDay, start);
    forall k | 0 <= k < |ys|
      ensures ys[k] == RecordedRemaining(files, start + k)
    {
      ReadSnapshotAt(files, today, d - k);
      assert today - (d - k) == start + k;
    }
  }

  /** A missing snapshot of any day from the start to today empties the series. */
  lemma BurndownGap(files: map<Day, Envelope>, today: Day, secondsIntoDay: int, start: Day, missing: Day)
    requires 0 <= secondsIntoDay < SecondsPerDay
    requires start <= missing <= today
    requires missing !in files
    ensures YValues(files, today, secondsIntoDay, start) == []
  {
    ElapsedDaysValue(today, secondsIntoDay, start);
    var read, i := ReadSnapshot(files, today), today - missing;
    ReadSnapshotAt(files, today, i);
    assert today - i == missing;
    assert read(i).Err?;
    SeriesGap(read, today - start, i);
  }

  /** Once the sprint has started, the series is non-empty exactly when the history is complete. */
  lemma BurndownAllOrNothing(files: map<Day, Envelope>, today: Day, secondsIntoDay: int, start: Day)
    requires 0 <= secondsIntoDay < SecondsPerDay
    requires start <= today
    ensures YValues(files, today, secondsIntoDay, start) != [] <==> HistoryComplete(files, start, today)
  {
    if HistoryComplete(files, start, today) {
      BurndownAligned(files, today, secondsIntoDay, start);
    } else {
      var missing :| start <= missing <= today && missing !in files;
      BurndownGap(files, today, secondsIntoDay, start, missing);
    }
  }

  /**
   * A sprint starting tomorrow, seen after midnight, still reads today's
   * snapshot; one starting later reads nothing.
   */
  lemma BurndownBeforeStart(files: map<Day, Envelope>, today: Day, secondsIntoDay: int, start: Day)
    requires 0 < secondsIntoDay < SecondsPerDay
    requires start > today
    ensures start == today + 1 && today in files ==>
              YValues(files, today, secondsIntoDay, start) == [RecordedRemaining(files, today)]
    ensures start == today + 1 && today !in files ==>
              YValues(files, today, secondsIntoDay, start) == []
    ensures start > today + 1 ==> YValues(files, today, secondsIntoDay, start) == []
  {
    ElapsedDaysValue(today, secondsIntoDay, start);
    if start == today + 1 {
      OffsetsOldestFirst(0);
      ReadSnapshotAt(files, today, 0);
      if today in files {
        SeriesComplete(ReadSnapshot(files, today), 0);
      } else {
        SeriesGap(ReadSnapshot(files, today), 0, 0);
      }
    }
  }

  // ---------------------------------------------------------------------
  // X-axis labels

  /** Number of days from `first` to `last` inclusive. */
  function Span(first: Day, last: Day): (r: nat) {
    if first <= last then last - first + 1 else 0
  }

  /** One `MM/DD` label per day of the sprint. */
  function XLabels(start: Day, end: Day): (r: seq<string>)
    ensures |r| == Span(start, end)
    ensures forall i :: 0 <= i < |r| ==> |r[i]| == 5 && r[i][2] == '/'
  {
    var labels := seq(Span(start, end), i => MonthDay(start + i));
    assert forall i :: 0 <= i < |labels| ==> labels[i] == MonthDay(start + i);
    labels
  }

  method BuildXLabels(start: Day, end: Day) returns (xLabels: seq<string>)
    ensures xLabels == XLabels(start, end)
  {
    var diff := end - start;
    xLabels := [];
    var i := 0;
    while i <= diff
      invariant 0 <= i <= Span(start, end)
      invariant xLabels == XLabels(start, start + i - 1)
    {
      xLabels := xLabels + [MonthDay(start + i)];
      i := i + 1;
    }
  }

  /**
   * The labels run from the start date to the end date: label `i` is the
   * date `i` calendar days after the start.
   */
  lemma LabelsSpanSprint(start: Day, end: Day)
    requires start <= end
    ensures var labels := XLabels(start, end);
            |labels| == end - start + 1
            && forall i: nat :: i < |labels| ==> labels[i] == MonthDayOf(AddDays(DateOf(start), i))
  {
    var labels := XLabels(start, end);
    forall i: nat | i < |labels|
      ensures labels[i] == MonthDayOf(AddDays(DateOf(start), i))
    {
      LabelAt(start, end, i);
    }
  }

  lemma LabelAt(start: Day, end: Day, i: nat)
    requires i < Span(start, end)
    ensures XLabels(start, end)[i] == MonthDayOf(AddDays(DateOf(start), i))
  {
    assert XLabels(start, end)[i] == MonthDay(start + i);
    DateOfAdd(start, i);
  }

  /** The first label is the start date and the last the end date. */
  lemma LabelsEndpoints(start: Day, end: Day)
    requires start <= end
    ensures var labels := XLabels(start, end);
            labels[0] == MonthDay(start) && labels[|labels| - 1] == MonthDay(end)
  {
    var labels := XLabels(start, end);
    assert start + 0 == start;
    assert start + (|labels| - 1) == end;
  }


  // ---------------------------------------------------------------------
  // Guideline

  /** A JavaScript number as the guideline computes it: an integer, or NaN after `0 / 0`. */
  datatype Number = Num(n: int) | NaN

  /**
   * `goal - Math.floor(goal * i / diff)` for `0 <= i <= diff`: for a
   * positive divisor Dafny's `/` rounds down, as `Math.floor` of the exact
   * quotient does; with `diff == 0` (so `i == 0`) the quotient `0 / 0` is
   * NaN, and so is the value.
   */
  function IdealRemaining(goal: int, diff: int, i: int): (r: Number)
    requires diff >= 0
    ensures r.NaN? <==> diff == 0
    ensures diff > 0 && i == 0 ==> r == Num(goal)
  {
    if diff == 0 then NaN else Num(goal - (goal * i) / diff)
  }

  /** One guideline value per sprint day; no values when the end precedes the start. */
  function Guideline(goal: int, diff: int): (r: seq<Number>)
    ensures |r| == Span(0, diff)
    ensures forall i :: 0 <= i < |r| ==> (r[i].NaN? <==> diff == 0)
  {
    if diff < 0 then [] else seq(diff + 1, i => IdealRemaining(goal, diff, i))
  }

  method BuildGuideline(goal: int, diff: int) returns (guidelineValues: seq<Number>)
    ensures guidelineValues == Guideline(goal, diff)
  {
    guidelineValues := [];
    var i := 0;
    while i <= diff
      invariant diff >= 0 ==> 0 <= i <= diff + 1
      invariant diff < 0 ==> i == 0
      invariant |guidelineValues| == (if diff >= 0 then i else 0)
      invariant forall k :: 0 <= k < |guidelineValues| ==> guidelineValues[k] == IdealRemaining(goal, diff, k)
    {
      guidelineValues := guidelineValues + [IdealRemaining(goal, diff, i)];
      i := i + 1;
    }
  }

  lemma DivMonotone(a: int, b: int, c: int)
    requires a <= b && c > 0
    ensures a / c <= b / c
  {
    var qa, qb := a / c, b / c;
    if qa > qb {
      MulMonotone(c, qb + 1, qa);
    }
  }

  lemma MulDivCancel(a: int, c: int)
    requires c > 0
    ensures (a * c) / c == a
  {
    var q, r := (a * c) / c, (a * c) % c;
    assert c * (a - q) == r;
    if a - q >= 1 {
      MulMonotone(c, 1, a - q);
    } else if a - q <= -1 {
      MulMonotone(c, a - q, -1);
    }
  }

  lemma MulMonotone(goal: int, i: int, j: int)
    requires goal >= 0 && i <= j
    ensures goal * i <= goal * j
  {
    assert goal * j - goal * i == goal * (j - i);
  }

  /** The guideline is all numbers, one per label, starting at the goal and ending at zero. */
  lemma GuidelineEndpoints(goal: int, diff: int)
    requires diff > 0
    ensures var g := Guideline(goal, diff);
            |g| == diff + 1 && (forall i :: 0 <= i < |g| ==> g[i].Num?)
            && g[0] == Num(goal) && g[diff] == Num(0)
  {
    MulDivCancel(goal, diff);
  }

  /** For a non-negative goal the guideline never rises and stays within `[0, goal]`. */
  lemma GuidelineNonIncreasing(goal: int, diff: int)
    requires diff > 0 && goal >= 0
    ensures var g := Guideline(goal, diff);
            (forall i, j :: 0 <= i <= j < |g| ==> g[j].n <= g[i].n)
            && (forall i :: 0 <= i < |g| ==> 0 <= g[i].n <= goal)
  {
    var g := Guideline(goal, diff);
    forall i, j | 0 <= i <= j < |g|
      ensures g[j].n <= g[i].n
    {
      MulMonotone(goal, i, j);
      DivMonotone(goal * i, goal * j, diff);
    }
    forall i | 0 <= i < |g|
      ensures 0 <= g[i].n <= goal
    {
      MulMonotone(goal, 0, i);
      MulMonotone(goal, i, diff);
      DivMonotone(0, goal * i, diff);
      DivMonotone(goal * i, goal * diff, diff);
      MulDivCancel(goal, diff);
    }
  }

  /** A zero goal gives an all-zero guideline. */
  lemma GuidelineZeroGoal(diff: int)
    requires diff > 0
    ensures forall i :: 0 <= i < |Guideline(0, diff)| ==> Guideline(0, diff)[i] == Num(0)
  {
  }

  /** A sprint ending on its start day gets a single NaN point: `0 / 0`. */
  lemma GuidelineSingleDay(goal: int)
    ensures Guideline(goal, 0) == [NaN]
  {
  }

  /** Goal 20 over 11 intervals: day 5 is 20 - floor(100 / 11) = 11. */
  lemma GuidelineExample()
    ensures Guideline(20, 11)[5] == Num(11)
  {
  }

  // ---------------------------------------------------------------------
  // Title and chart configuration

  /** `name + "(" + MM/DD of start + "~" + MM/DD of end + ")"`. */
  function Title(name: string, start: Day, end: Day): (r: string)
    ensures |r| == |name| + 13 && r[..|name|] == name
    ensures r[|name|] == '(' && r[|name| + 6] == '~' && r[|r| - 1] == ')'
  {
    name + "(" + MonthDay(start) + "~" + MonthDay(end) + ")"
  }

  /** The title names the first and last axis labels. */
  lemma TitleShowsLabelRange(name: string, start: Day, end: Day)
    requires start <= end
    ensures var labels := XLabels(start, end);
            Title(name, start, end) == name + "(" + labels[0] + "~" + labels[|labels| - 1] + ")"
  {
    LabelsSpanSprint(start, end);
  }

  /** One line of the chart: its legend and its values. */
  datatype Dataset<T> = Dataset(legend: string, data: seq<T>)

  /** The parts of the chart configuration the report computes. */
  datatype ChartConfig = ChartConfig(
    labels: seq<string>,
    remaining: Dataset<int>,
    guideline: Dataset<Number>,
    title: string)

  const RemainingLabel := "Story Points remaining"
  const GuidelineLabel := "Guideline"

  /** The line chart of one run. */
  function ChartOf(files: map<Day, Envelope>, today: Day, secondsIntoDay: int, sprint: Sprint): (r: ChartConfig)
    requires 0 <= secondsIntoDay < SecondsPerDay
    ensures |r.labels| == |r.guideline.data| == Span(sprint.startDate, sprint.endDate)
    ensures r.remaining.legend == RemainingLabel && r.guideline.legend == GuidelineLabel
  {
    ChartConfig(
      XLabels(sprint.startDate, sprint.endDate),
      Dataset(RemainingLabel, YValues(files, today, secondsIntoDay, sprint.startDate)),
      Dataset(GuidelineLabel, Guideline(sprint.goal, sprint.endDate - sprint.startDate)),
      Title(sprint.name, sprint.startDate, sprint.endDate))
  }

  /**
   * Mid-sprint with a complete history, the remaining-points line covers the
   * first `today - start + 1` labels, value `k` being day `start + k`'s
   * figure (label `k` is that day, by `LabelsSpanSprint`), while the
   * guideline covers every label.
   */
  lemma ChartAligned(files: map<Day, Envelope>, today: Day, secondsIntoDay: int, sprint: Sprint)
    requires 0 <= secondsIntoDay < SecondsPerDay
    requires sprint.startDate <= today <= sprint.endDate
    requires HistoryComplete(files, sprint.startDate, today)
    ensures var c := ChartOf(files, today, secondsIntoDay, sprint);
            var ys := c.remaining.data;
            |ys| == today - sprint.startDate + 1 <= |c.labels| == |c.guideline.data|
            && forall k :: 0 <= k < |ys| ==> ys[k] == RecordedRemaining(files, sprint.startDate + k)
  {
    BurndownAligned(files, today, secondsIntoDay, sprint.startDate);
  }

  /** After the end date the remaining-points line is not cut at the last label. */
  lemma ChartNotClamped(files: map<Day, Envelope>, today: Day, secondsIntoDay: int, sprint: Sprint)
    requires 0 <= secondsIntoDay < SecondsPerDay
    requires sprint.startDate <= sprint.endDate < today
    requires HistoryComplete(files, sprint.startDate, today)
    ensures var c := ChartOf(files, today, secondsIntoDay, sprint);
            |c.remaining.data| == |c.labels| + (today - sprint.endDate)
  {
    BurndownAligned(files, today, secondsIntoDay, sprint.startDate);
  }

  // ---------------------------------------------------------------------
  // One run

  /**
   * One run of the report on `today`, `secondsIntoDay` after local
   * midnight, with the tracker's answer `issues`. The snapshot is written
   * under the key of `keyDay`, the day the module was loaded (its
   * `YYYYMMDD` is computed once, at load); the stamp, the day count and the
   * reads use the clock at run time. The chart is assembled from the store
   * as it is after that write.
   */
  method SendChart(dir: OutputDir, issues: SprintIssues, keyDay: Day, today: Day, secondsIntoDay: int)
    returns (chart: ChartConfig)
    requires 0 <= secondsIntoDay < SecondsPerDay
    modifies dir
    ensures dir.snapshots == old(dir.snapshots)[keyDay :=
              SuccessEnvelope(Normalise(issues), UpdateStamp(today, secondsIntoDay))]
    ensures chart == ChartOf(dir.snapshots, today, secondsIntoDay, Normalise(issues))
  {
    var sprint := Normalise(issues);
    var jsonData := SuccessEnvelope(sprint, UpdateStamp(today, secondsIntoDay));
    dir.WriteSnapshot(keyDay, jsonData);

    var startAndEndDateDiff := sprint.endDate - sprint.startDate;
    var xLabels := BuildXLabels(sprint.startDate, sprint.endDate);

    var dateDifferenceArray := BuildOffsets(ElapsedDays(today, secondsIntoDay, sprint.startDate));
    ReverseInPlace(dateDifferenceArray);
    var yValues := CollectRemaining(ReadSnapshot(dir.snapshots, today), dateDifferenceArray[..]);

    var guidelineValues := BuildGuideline(sprint.goal, startAndEndDateDiff);
    chart := ChartConfig(
      xLabels,
      Dataset(RemainingLabel, yValues),
      Dataset(GuidelineLabel, guidelineValues),
      Title(sprint.name, sprint.startDate, sprint.endDate));
  }

  /**
   * A run in a process loaded on an earlier day writes under that day's
   * key, so today's snapshot is still missing and, once the sprint has
   * started, the series is empty.
   */
  lemma StaleKeyEmptiesSeries(files: map<Day, Envelope>, keyDay: Day, today: Day, secondsIntoDay: int,
                              start: Day, e: Envelope)
    requires 0 <= secondsIntoDay < SecondsPerDay
    requires keyDay != today && today !in files
    requires start <= today
    ensures YValues(files[keyDay := e], today, secondsIntoDay, start) == []
  {
    BurndownGap(files[keyDay := e], today, secondsIntoDay, start, today);
  }

  /** A write under today's key, after a complete history, is the last point of the series. */
  lemma SeriesEndsWithWrite(files: map<Day, Envelope>, keyDay: Day, today: Day, secondsIntoDay: int,
                            start: Day, e: Envelope)
    requires 0 <= secondsIntoDay < SecondsPerDay
    requires keyDay == today && start <= today
    requires HistoryComplete(files, start, today - 1)
    ensures var ys := YValues(files[keyDay := e], today, secondsIntoDay, start);
            |ys| == today - start + 1 && ys[|ys| - 1] == e.data.notCompletedIssuesPointSum
  {
    var after := files[keyDay := e];
    assert HistoryComplete(after, start, today);
    BurndownAligned(after, today, secondsIntoDay, start);
  }

  /**
   * In a process loaded on the day of the run, with every earlier sprint
   * day on record, the chart ends with the figure the run has just written.
   */
  lemma LatestPointIsThisRun(files: map<Day, Envelope>, issues: SprintIssues, keyDay: Day, today: Day,
                              secondsIntoDay: int)
    requires 0 <= secondsIntoDay < SecondsPerDay
    requires keyDay == today
    requires Normalise(issues).startDate <= today
    requires HistoryComplete(files, Normalise(issues).startDate, today - 1)
    ensures var sprint := Normalise(issues);
            var after := files[keyDay := SuccessEnvelope(sprint, UpdateStamp(today, secondsIntoDay))];
            var ys := ChartOf(after, today, secondsIntoDay, sprint).remaining.data;
            |ys| == today - sprint.startDate + 1
            && ys[|ys| - 1] == (if issues.contents.issuesNotCompletedEstimateSum.Present?
                                then issues.contents.issuesNotCompletedEstimateSum.n else 0)
  {
    var sprint := Normalise(issues);
    var e := SuccessEnvelope(sprint, UpdateStamp(today, secondsIntoDay));
    SeriesEndsWithWrite(files, keyDay, today, secondsIntoDay, sprint.startDate, e);
  }

  /**
   * A second run writing under the same key replaces the first run's
   * snapshot: the store ends as if only the second had run, holds the same
   * files as after the first, and yields a series of the same length.
   */
  lemma RerunSameDay(files: map<Day, Envelope>, keyDay: Day, today: Day, secondsIntoDay: int, start: Day,
                     e1: Envelope, e2: Envelope)
    requires 0 <= secondsIntoDay < SecondsPerDay
    ensures var once := files[keyDay := e1];
            var twice := once[keyDay := e2];
            twice == files[keyDay := e2]
            && twice.Keys == once.Keys
            && |YValues(twice, today, secondsIntoDay, start)| == |YValues(once, today, secondsIntoDay, start)|
  {
    var once := files[keyDay := e1];
    var twice := once[keyDay := e2];
    assert twice.Keys == once.Keys;
    forall i
      ensures ReadSnapshot(twice, today)(i).Ok? <==> ReadSnapshot(once, today)(i).Ok?
    {
      ReadSnapshotAt(twice, today, i);
      ReadSnapshotAt(once, today, i);
    }
    SeriesLengthFollowsResolution(ReadSnapshot(twice, today), ReadSnapshot(once, today),
      Offsets(ElapsedDays(today, secondsIntoDay, start)));
  }
}
