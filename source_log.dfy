/** The `source_log` table as the tracker uses it: one row of counters per (date, source name),
    changed only by the two statements of `updateSourceInDatabase`. */
module SourceLog {

  /** The counters of one row (`visible_count`, `total_duration`, `last_visible_at`). */
  datatype Row = Row(visibleCount: int, totalDuration: int, lastVisibleAt: string)

  /** The columns the statements select a row by. */
  datatype Key = Key(date: string, sourceName: string)

  type Rows = map<Key, Row>

  /** The arguments of one `updateSourceInDatabase` call. */
  datatype Update = Update(sourceName: string, isVisible: bool, timestamp: string, duration: int)

  /** A show: bump the count of an existing row and stamp it, or insert a fresh row whose
      count is 1. */
  function RecordShow(rows: Rows, key: Key, timestamp: string): (r: Rows)
    ensures r.Keys == rows.Keys + {key}
    ensures r[key].lastVisibleAt == timestamp
  {
    if key in rows then
      rows[key := rows[key].(visibleCount := rows[key].visibleCount + 1, lastVisibleAt := timestamp)]
    else
      rows[key := Row(1, 0, timestamp)]
  }

  /** A hide: add the duration to an existing row; a missing row is left missing. */
  function AddDuration(rows: Rows, key: Key, duration: int): (r: Rows)
    ensures r.Keys == rows.Keys
  {
    if key in rows then rows[key := rows[key].(totalDuration := rows[key].totalDuration + duration)]
    else rows
  }

  /** The effect of one update, on the row of the date the update is written under. */
  function Apply(rows: Rows, date: string, u: Update): (r: Rows)
    ensures r.Keys == rows.Keys + (if u.isVisible then {Key(date, u.sourceName)} else {})
    ensures forall k :: k in rows && k != Key(date, u.sourceName) ==> r[k] == rows[k]
  {
    var key := Key(date, u.sourceName);
    if u.isVisible then RecordShow(rows, key, u.timestamp) else AddDuration(rows, key, u.duration)
  }

  /** A show on an existing row adds one to its count and keeps its duration; on a missing
      row it inserts count 1, duration 0. Every other row is untouched. */
  lemma ShowIncrementsOrInserts(rows: Rows, date: string, name: string, timestamp: string, d: int)
    ensures var r := Apply(rows, date, Update(name, true, timestamp, d));
      var key := Key(date, name);
      && r[key].visibleCount == (if key in rows then rows[key].visibleCount + 1 else 1)
      && r[key].totalDuration == (if key in rows then rows[key].totalDuration else 0)
      && r[key].lastVisibleAt == timestamp
      && forall k :: k in rows && k != key ==> r[k] == rows[k]
  {
  }

  /** A hide adds its duration to an existing row, never inserts one, never touches the
      count, and touches no other row. */
  lemma HideOnlyAddsDuration(rows: Rows, date: string, name: string, timestamp: string, d: int)
    ensures var r := Apply(rows, date, Update(name, false, timestamp, d));
      var key := Key(date, name);
      && r.Keys == rows.Keys
      && (key in rows ==> r[key] == rows[key].(totalDuration := rows[key].totalDuration + d))
      && forall k :: k in rows && k != key ==> r[k] == rows[k]
  {
  }

  /** No counter ever goes down, provided hides carry non-negative durations (the tracker
      does not clamp them: a wall clock that steps back yields a negative one). */
  lemma CountersNeverDecrease(rows: Rows, date: string, u: Update)
    requires !u.isVisible ==> u.duration >= 0
    ensures var r := Apply(rows, date, u);
      forall k :: k in rows ==> k in r && r[k].visibleCount >= rows[k].visibleCount
                                 && r[k].totalDuration >= rows[k].totalDuration
  {
  }

  /** The table as the process sees it: rows that `updateSourceInDatabase` reads and writes. */
  class SourceLogTable {
    var rows: Rows

    constructor (initial: Rows)
      ensures rows == initial
    {
      rows := initial;
    }

    /** `updateSourceInDatabase`: a show reads the row and then updates or inserts it; a hide
        runs one UPDATE that matches the row if there is one. */
    method UpdateSourceInDatabase(date: string, u: Update)
      modifies this
      ensures rows == Apply(old(rows), date, u)
    {
      var key := Key(date, u.sourceName);
      if u.isVisible {
        if key in rows {
          var row := rows[key];
          rows := rows[key := Row(row.visibleCount + 1, row.totalDuration, u.timestamp)];
        } else {
          rows := rows[key := Row(1, 0, u.timestamp)];
        }
      } else if key in rows {
        var row := rows[key];
        rows := rows[key := row.(totalDuration := row.totalDuration + u.duration)];
      }
    }
  }
}
