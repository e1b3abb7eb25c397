/**
 * The daily sprint snapshot: normalisation of the sprint-tracker's answer
 * into the record the report persists, and the envelope it is written in.
 */
module Snapshot {
  import opened Calendar
  import opened DateFormat

  /** A numeric field of the tracker's answer, which may be missing or null. */
  datatype Field = Absent | Present(n: int)

  /** JavaScript truthiness of the field: missing, null and 0 are falsy. */
  predicate Truthy(f: Field) {
    f.Present? && f.n != 0
  }

  /** `f ? f : 0`: the field's value, 0 when it is missing. */
  function OrZero(f: Field): (v: int)
    ensures v == (if f.Present? then f.n else 0)
  {
    if Truthy(f) then f.n else 0
  }

  /** The parts of the tracker's sprint report the snapshot reads; ISO dates arrive as day numbers. */
  datatype TrackerSprint = TrackerSprint(id: int, name: string, goal: Field, isoStartDate: Day, isoEndDate: Day)

  datatype TrackerContents = TrackerContents(
    completedIssuesEstimateSum: Field,
    issuesNotCompletedEstimateSum: Field)

  datatype SprintIssues = SprintIssues(sprint: TrackerSprint, contents: TrackerContents)

  /** The persisted sprint figures. */
  datatype Sprint = Sprint(
    id: int,
    name: string,
    goal: int,
    startDate: Day,
    endDate: Day,
    issuesPointSum: int,
    notCompletedIssuesPointSum: int)

  /**
   * The "point sum" as the source's expression evaluates it: the conditional
   * binds looser than `+`, so it reads `c ? c : ((0 + n) ? n : 0)`, and
   * `0 + n` is falsy exactly when `n` is.
   */
  function IssuesPointSum(c: TrackerContents): (v: int)
    ensures Truthy(c.completedIssuesEstimateSum) ==> v == c.completedIssuesEstimateSum.n
    ensures !Truthy(c.completedIssuesEstimateSum) ==> v == OrZero(c.issuesNotCompletedEstimateSum)
    ensures Truthy(c.completedIssuesEstimateSum) && Truthy(c.issuesNotCompletedEstimateSum) ==>
              v != c.completedIssuesEstimateSum.n + c.issuesNotCompletedEstimateSum.n
  {
    var completed, notCompleted := c.completedIssuesEstimateSum, c.issuesNotCompletedEstimateSum;
    if Truthy(completed) then completed.n
    else if Truthy(notCompleted) then notCompleted.n
    else 0
  }

  /** The snapshot built field by field from the tracker's answer. */
  function Normalise(issues: SprintIssues): (s: Sprint)
    ensures s.id == issues.sprint.id && s.name == issues.sprint.name
    ensures s.goal == (if issues.sprint.goal.Present? then issues.sprint.goal.n else 0)
    ensures s.startDate == issues.sprint.isoStartDate && s.endDate == issues.sprint.isoEndDate
    ensures s.issuesPointSum == IssuesPointSum(issues.contents)
    ensures s.notCompletedIssuesPointSum ==
              (if issues.contents.issuesNotCompletedEstimateSum.Present?
               then issues.contents.issuesNotCompletedEstimateSum.n else 0)
  {
    Sprint(
      issues.sprint.id,
      issues.sprint.name,
      OrZero(issues.sprint.goal),
      issues.sprint.isoStartDate,
      issues.sprint.isoEndDate,
      IssuesPointSum(issues.contents),
      OrZero(issues.contents.issuesNotCompletedEstimateSum))
  }

  /** Non-negative tracker figures give non-negative snapshot figures. */
  lemma NormaliseNonNegative(issues: SprintIssues)
    requires issues.sprint.goal.Present? ==> issues.sprint.goal.n >= 0
    requires issues.contents.completedIssuesEstimateSum.Present? ==>
               issues.contents.completedIssuesEstimateSum.n >= 0
    requires issues.contents.issuesNotCompletedEstimateSum.Present? ==>
               issues.contents.issuesNotCompletedEstimateSum.n >= 0
    ensures var s := Normalise(issues);
            s.goal >= 0 && s.issuesPointSum >= 0 && s.notCompletedIssuesPointSum >= 0
  {
  }

  /** The record written to the store: status code, sprint, write time and status text. */
  datatype Envelope = Envelope(code: int, data: Sprint, updateDate: string, msg: string)

  /** The record of a successful fetch: code 0, text "success", the sprint and the write stamp. */
  function SuccessEnvelope(sprint: Sprint, stamp: string): (r: Envelope)
    ensures r.code == 0 && r.msg == "success"
    ensures r.data == sprint && r.updateDate == stamp
  {
    Envelope(0, sprint, stamp, "success")
  }

  const SecondsPerDay := 86400

  /** `moment().format("YYYY/MM/DD HH:mm:ss")` for the local time `secondsIntoDay` on day `today`. */
  function UpdateStamp(today: Day, secondsIntoDay: int): (s: string)
    requires 0 <= secondsIntoDay < SecondsPerDay
    ensures |s| >= 15
    ensures s[|s| - 15] == '/' && s[|s| - 12] == '/' && s[|s| - 9] == ' '
    ensures s[|s| - 6] == ':' && s[|s| - 3] == ':'
  {
    DateStamp(DateOf(today)) + " " + ClockStamp(secondsIntoDay)
  }

  /** The `YYYY/MM/DD` part of the stamp. */
  function DateStamp(d: Date): (r: string)
    requires Valid(d)
    ensures |r| >= 6 && r[|r| - 6] == '/' && r[|r| - 3] == '/'
  {
    assert Pow10(2) == 100;
    ZeroFillShape(d.month, 2);
    ZeroFillShape(d.day, 2);
    YearText(d.year) + "/" + ZeroFill(d.month, 2) + "/" + ZeroFill(d.day, 2)
  }

  /** The `HH:mm:ss` part of the stamp. */
  function ClockStamp(secondsIntoDay: int): (r: string)
    requires 0 <= secondsIntoDay < SecondsPerDay
    ensures |r| == 8 && r[2] == ':' && r[5] == ':'
  {
    assert Pow10(2) == 100;
    ZeroFillShape(secondsIntoDay / 60 / 60, 2);
    ZeroFillShape(secondsIntoDay / 60 % 60, 2);
    ZeroFillShape(secondsIntoDay % 60, 2);
    ZeroFill(secondsIntoDay / 60 / 60, 2) + ":" + ZeroFill(secondsIntoDay / 60 % 60, 2)
    + ":" + ZeroFill(secondsIntoDay % 60, 2)
  }

  /** The stamp reads back as the date and the time of day it was made from. */
  lemma UpdateStampTime(today: Day, secondsIntoDay: int)
    requires 0 <= secondsIntoDay < SecondsPerDay
    requires FourDigitYear(today)
    ensures var s := UpdateStamp(today, secondsIntoDay);
            |s| == 19
            && DecimalValue(s[..4]) == DateOf(today).year
            && DecimalValue(s[5..7]) == DateOf(today).month
            && DecimalValue(s[8..10]) == DateOf(today).day
            && DecimalValue(s[11..13]) * 3600 + DecimalValue(s[14..16]) * 60 + DecimalValue(s[17..19])
               == secondsIntoDay
  {
    var date, clock := DateStamp(DateOf(today)), ClockStamp(secondsIntoDay);
    DateStampDigits(DateOf(today));
    ClockStampTime(secondsIntoDay);
    StampFields(date, clock);
  }

  /** Where the fields of the date part and the clock part sit in the joined stamp. */
  lemma StampFields(date: string, clock: string)
    requires |date| == 10 && |clock| == 8
    ensures var s := date + " " + clock;
            |s| == 19
            && s[..4] == date[..4] && s[5..7] == date[5..7] && s[8..10] == date[8..]
            && s[11..13] == clock[0..2] && s[14..16] == clock[3..5] && s[17..19] == clock[6..8]
  {
    var s := date + " " + clock;
    assert s[..10] == date && s[11..] == clock;
  }

  /** For a four-digit year, `YYYY/MM/DD` is 10 characters whose fields read back as the date. */
  lemma DateStampDigits(d: Date)
    requires Valid(d) && 0 <= d.year <= 9999
    ensures var r := DateStamp(d);
            |r| == 10
            && DecimalValue(r[..4]) == d.year
            && DecimalValue(r[5..7]) == d.month
            && DecimalValue(r[8..]) == d.day
  {
    var y, m, dd := ZeroFill(d.year, 4), ZeroFill(d.month, 2), ZeroFill(d.day, 2);
    assert Pow10(2) == 100 && Pow10(4) == 10000;
    ZeroFillShape(d.year, 4);
    ZeroFillShape(d.month, 2);
    ZeroFillShape(d.day, 2);
    var r := DateStamp(d);
    assert r == y + "/" + m + "/" + dd;
    assert r[..4] == y && r[5..7] == m && r[8..] == dd;
    ZeroFillValue(d.year, 4);
    ZeroFillValue(d.month, 2);
    ZeroFillValue(d.day, 2);
  }

  lemma ClockStampTime(secondsIntoDay: int)
    requires 0 <= secondsIntoDay < SecondsPerDay
    ensures var c := ClockStamp(secondsIntoDay);
            |c| == 8 &&
            DecimalValue(c[0..2]) * 3600 + DecimalValue(c[3..5]) * 60 + DecimalValue(c[6..8])
            == secondsIntoDay
  {
    var minutes := secondsIntoDay / 60;
    var h, m, sec := minutes / 60, minutes % 60, secondsIntoDay % 60;
    assert secondsIntoDay == 60 * minutes + sec && minutes == 60 * h + m;
    assert Pow10(2) == 100;
    ZeroFillShape(h, 2);
    ZeroFillShape(m, 2);
    ZeroFillShape(sec, 2);
    var hh, mm, ss := ZeroFill(h, 2), ZeroFill(m, 2), ZeroFill(sec, 2);
    var c := ClockStamp(secondsIntoDay);
    assert c == hh + ":" + mm + ":" + ss;
    assert c[0..2] == hh && c[3..5] == mm && c[6..8] == ss;
    ZeroFillValue(h, 2);
    ZeroFillValue(m, 2);
    ZeroFillValue(sec, 2);
  }
}
