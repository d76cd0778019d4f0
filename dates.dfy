/** Calendar dates cut out of ISO-8601 timestamps (`new Date().toISOString().split('T')[0]`). */
module Dates {

  /** The first field of `iso.split('T')`: everything before the first 'T', or the whole
      string when it has none. */
  function DatePart(iso: string): (d: string)
    ensures d <= iso
    ensures 'T' !in d
    ensures |d| < |iso| ==> iso[|d|] == 'T'
  {
    if iso == [] || iso[0] == 'T' then [] else [iso[0]] + DatePart(iso[1..])
  }

  /** Splitting a timestamp written as date, 'T', time gives back exactly the date, whatever
      the time part holds. */
  lemma {:induction false} DatePartOfTimestamp(date: string, time: string)
    requires 'T' !in date
    ensures DatePart(date + "T" + time) == date
  {
    if date != [] {
      assert (date + "T" + time)[1..] == date[1..] + "T" + time;
      DatePartOfTimestamp(date[1..], time);
    }
  }
}
