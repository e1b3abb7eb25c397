/**
 * The `./output/` directory of daily snapshot files. Day `d`'s snapshot is
 * the file `SnapshotPath(Key(d))`; since distinct days of four-digit years
 * have distinct file names (`SnapshotFilesDistinct`), the directory is held
 * as a map from the day to the record in that day's file. Records are held
 * already parsed: writing the JSON text and parsing it back is taken to
 * give the same record.
 */
module OutputStore {
  import opened Calendar
  import opened DateFormat
  import opened Snapshot

  /** The file a snapshot with date key `key` lives in. */
  function SnapshotPath(key: string): (r: string)
    ensures |r| == |key| + 26
    ensures r[..9] == "./output/" && r[|r| - 17..] == "_sprint_data.json"
  {
    "./output/" + key + "_sprint_data.json"
  }

  /** Different keys name different files. */
  lemma SnapshotPathInjective(k1: string, k2: string)
    requires SnapshotPath(k1) == SnapshotPath(k2)
    ensures k1 == k2
  {
    var p1, p2 := SnapshotPath(k1), SnapshotPath(k2);
    assert |k1| == |k2|;
    assert k1 == p1[9..9 + |k1|];
    assert k2 == p2[9..9 + |k2|];
  }

  /** File names keep the string order of equally long keys. */
  lemma SnapshotPathOrder(k1: string, k2: string)
    requires |k1| == |k2| && LexLess(k1, k2)
    ensures LexLess(SnapshotPath(k1), SnapshotPath(k2))
  {
    LexLessEmbed("./output/", k1, k2, "_sprint_data.json");
  }

  /** Two different days of four-digit years never share a snapshot file. */
  lemma SnapshotFilesDistinct(a: Day, b: Day)
    requires FourDigitYear(a) && FourDigitYear(b)
    requires a != b
    ensures SnapshotPath(Key(a)) != SnapshotPath(Key(b))
  {
    KeyInjective(a, b);
    if SnapshotPath(Key(a)) == SnapshotPath(Key(b)) {
      SnapshotPathInjective(Key(a), Key(b));
    }
  }

  class OutputDir {
    /** The record in each day's snapshot file. */
    var snapshots: map<Day, Envelope>

    constructor (initial: map<Day, Envelope>)
      ensures snapshots == initial
    {
      snapshots := initial;
    }

    /** `fs.writeFile` of day `day`'s snapshot file: creates it or replaces its content. */
    method WriteSnapshot(day: Day, e: Envelope)
      modifies this
      ensures snapshots == old(snapshots)[day := e]
    {
      snapshots := snapshots[day := e];
    }
  }
}
