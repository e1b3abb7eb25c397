/**
 * Reading back the snapshot of the day `i` days before today: the file
 * named by that day's `YYYYMMDD` key is read; a missing file rejects.
 */
module GetJson {
  import opened Wrappers
  import opened Calendar
  import opened Snapshot

  /** The read of the snapshot file of day `day` failed: there is no such file. */
  datatype ReadError = NoSuchFile(day: Day)

  /** `getJsonAsync(i)`: the record in the file of `moment().subtract(i, "days")`. */
  function GetJsonAsync(snapshots: map<Day, Envelope>, today: Day, i: int): (r: Result<Envelope, ReadError>)
    ensures r.Err? <==> today - i !in snapshots
    ensures r.Ok? ==> r.value == snapshots[today - i]
  {
    var day := today - i;
    if day in snapshots then Ok(snapshots[day]) else Err(NoSuchFile(day))
  }

  /** Offset 0 reads exactly the file written under today's key, as a run in a process loaded today does. */
  lemma ReadsTodaysWrite(snapshots: map<Day, Envelope>, keyDay: Day, today: Day, e: Envelope)
    requires keyDay == today
    ensures GetJsonAsync(snapshots[keyDay := e], today, 0) == Ok(e)
  {
  }

  /** A write under another day's key leaves the read of offset 0 as it was. */
  lemma OtherKeyLeavesTodaysRead(snapshots: map<Day, Envelope>, keyDay: Day, today: Day, e: Envelope)
    requires keyDay != today
    ensures GetJsonAsync(snapshots[keyDay := e], today, 0) == GetJsonAsync(snapshots, today, 0)
  {
  }
}
