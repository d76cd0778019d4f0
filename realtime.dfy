/** `RealTimeManager` (frontend/js/realtime.js): two static fields, `data` (today's log rows)
    and `activeSources` (the names the server reports visible), replaced by server pushes and
    by polling, and the stat cards, session labels and table rows derived from them. Times
    are milliseconds; `Date.now()` is the parameter `now`, and a row's `last_visible_at` is
    given as the milliseconds it parses to (`None` when it is missing or does not parse). */
module Realtime {
  import opened Wrappers
  import Text

  /** One row of `/api/sources` (or of a pushed `data` array). */
  datatype SourceRow = SourceRow(
    sourceName: string,
    title: Option<string>,
    category: Option<string>,
    visibleCount: Option<int>,
    totalDuration: Option<int>,
    lastVisibleAt: Option<int>)

  /** A parsed WebSocket message; any field may be missing. */
  datatype Message = Message(
    kind: Option<string>,
    data: Option<seq<SourceRow>>,
    activeSources: Option<seq<string>>)

  /** What `JSON.parse(event.data)` gives: a message, or an exception that is logged. */
  datatype Incoming = Unparsable | Parsed(msg: Message)

  /** Only the two snapshot messages replace the state. */
  predicate Replaces(m: Incoming) {
    m.Parsed? && (m.msg.kind == Some("source_updated") || m.msg.kind == Some("initial_data"))
  }

  /** The outcome of the `/api/active` request inside `fetchRealTimeData`. */
  datatype ActiveReply = ActiveThrew | ActiveNotOk | ActiveOk(activeSources: Option<seq<string>>)

  // ---------------------------------------------------------------------------------------
  // Stat cards

  /** `data.reduce((sum, s) => sum + (s.visible_count || 0), 0)`. */
  function TotalShows(rows: seq<SourceRow>): (r: int)
    ensures (forall j :: 0 <= j < |rows| ==> rows[j].visibleCount.GetOr(0) >= 0) ==> r >= 0
    decreases |rows|
  {
    if rows == [] then 0
    else TotalShows(rows[..|rows| - 1]) + rows[|rows| - 1].visibleCount.GetOr(0)
  }

  /** `data.reduce((sum, s) => sum + (s.total_duration || 0), 0)`. */
  function TotalDuration(rows: seq<SourceRow>): (r: int)
    ensures (forall j :: 0 <= j < |rows| ==> rows[j].totalDuration.GetOr(0) >= 0) ==> r >= 0
    decreases |rows|
  {
    if rows == [] then 0
    else TotalDuration(rows[..|rows| - 1]) + rows[|rows| - 1].totalDuration.GetOr(0)
  }

  datatype Stats = Stats(totalSources: nat, activeCount: nat, totalShows: int, totalDuration: int)

  // ---------------------------------------------------------------------------------------
  // Session label and table row

  datatype Session = ActiveNow | RecentlyActive | NotActive

  const RecentWindow := 120000

  /** `data.find(s => s.source_name === name)`. */
  function Find(rows: seq<SourceRow>, name: string): (r: Option<SourceRow>)
    ensures r.None? <==> forall i :: 0 <= i < |rows| ==> rows[i].sourceName != name
    ensures r.Some? ==> r.value.sourceName == name
    ensures r.Some? ==>
      exists k :: 0 <= k < |rows| && rows[k] == r.value && forall j :: 0 <= j < k ==> rows[j].sourceName != name
    decreases |rows|
  {
    if rows == [] then None
    else if rows[0].sourceName == name then Some(rows[0])
    else
      var r := Find(rows[1..], name);
      if r.Some? then
        var k :| 0 <= k < |rows[1..]| && rows[1..][k] == r.value && r.value.sourceName == name
          && forall j :: 0 <= j < k ==> rows[1..][j].sourceName != name;
        assert rows[k + 1] == r.value;
        r
      else r
  }

  /** `getCurrentSessionDisplay(name)`. */
  function SessionOf(rows: seq<SourceRow>, active: seq<string>, name: string, now: int): (r: Session)
    ensures r == ActiveNow <==> name in active
    ensures r == RecentlyActive ==> exists k :: 0 <= k < |rows| && rows[k].sourceName == name
  {
    if name in active then ActiveNow
    else
      var found := Find(rows, name);
      if found.Some? && found.value.lastVisibleAt.Some? && now - found.value.lastVisibleAt.value < RecentWindow
      then RecentlyActive
      else NotActive
  }

  /** What `updateTable` shows for one row. */
  datatype RowView = RowView(
    isActive: bool,
    displayName: string,
    subtitle: Option<string>,
    session: Session,
    count: int)

  function RowViewOf(rows: seq<SourceRow>, active: seq<string>, row: SourceRow, now: int): (r: RowView)
    ensures r.isActive <==> row.sourceName in active
    ensures r.count == row.visibleCount.GetOr(0)
    ensures r.subtitle.Some? ==> r.subtitle.value == row.sourceName && r.displayName != row.sourceName
  {
    var display := Text.OrElse(row.title, row.sourceName);
    RowView(
      row.sourceName in active,
      display,
      if row.sourceName != display then Some(row.sourceName) else None,
      SessionOf(rows, active, row.sourceName, now),
      row.visibleCount.GetOr(0))
  }

  // ---------------------------------------------------------------------------------------
  // The manager's state

  class RealTimeView {
    var data: seq<SourceRow>
    var activeSources: seq<string>

    constructor()
      ensures data == [] && activeSources == []
    {
      data := [];
      activeSources := [];
    }

    /** `ws.onmessage`: a snapshot message replaces both fields, a missing field counting as
        an empty list; every other message, and text that does not parse, changes nothing. */
    method OnMessage(m: Incoming)
      modifies this
      ensures Replaces(m) ==> data == m.msg.data.GetOr([]) && activeSources == m.msg.activeSources.GetOr([])
      ensures !Replaces(m) ==> data == old(data) && activeSources == old(activeSources)
    {
      if Replaces(m) {
        data := m.msg.data.GetOr([]);
        activeSources := m.msg.activeSources.GetOr([]);
      }
    }

    /** `fetchRealTimeData`: a failed `/api/sources` request changes nothing; otherwise `data`
        is replaced, and `activeSources` is replaced by a successful `/api/active` reply,
        emptied when that request throws and kept when it answers with an error status. */
    method ApplyFetch(sources: Option<seq<SourceRow>>, active: ActiveReply)
      modifies this
      ensures sources.None? ==> data == old(data) && activeSources == old(activeSources)
      ensures sources.Some? ==> data == sources.value
      ensures sources.Some? && active.ActiveOk? ==> activeSources == active.activeSources.GetOr([])
      ensures sources.Some? && active.ActiveThrew? ==> activeSources == []
      ensures sources.Some? && active.ActiveNotOk? ==> activeSources == old(activeSources)
    {
      if sources.Some? {
        data := sources.value;
        match active {
          case ActiveOk(a) => activeSources := a.GetOr([]);
          case ActiveThrew => activeSources := [];
          case ActiveNotOk =>
        }
      }
    }

    /** `updateStats`. */
    function StatCards(): (s: Stats)
      reads this
      ensures s.totalSources == |data| && s.activeCount == |activeSources|
      ensures s.totalShows == TotalShows(data) && s.totalDuration == TotalDuration(data)
    {
      Stats(|data|, |activeSources|, TotalShows(data), TotalDuration(data))
    }

    /** `updateTable`, row by row. */
    function Table(now: int): (t: seq<RowView>)
      reads this
      ensures |t| == |data|
      ensures forall i :: 0 <= i < |data| ==> t[i] == RowViewOf(data, activeSources, data[i], now)
    {
      seq(|data|, i reads this requires 0 <= i < |data| => RowViewOf(data, activeSources, data[i], now))
    }
  }

  // ---------------------------------------------------------------------------------------
  // Properties

  /** The sums add up over a concatenation, so the cards can be totalled in any split. */
  lemma {:induction false} TotalsAppend(a: seq<SourceRow>, b: seq<SourceRow>)
    ensures TotalShows(a + b) == TotalShows(a) + TotalShows(b)
    ensures TotalDuration(a + b) == TotalDuration(a) + TotalDuration(b)
    decreases |b|
  {
    if b != [] {
      var b' := b[..|b| - 1];
      assert (a + b)[..|a + b| - 1] == a + b';
      assert (a + b)[|a + b| - 1] == b[|b| - 1];
      TotalsAppend(a, b');
    } else {
      assert a + b == a;
    }
  }

  /** A missing counter counts as 0: the sums equal those over rows where it is written out. */
  lemma {:induction false} MissingCountsAsZero(rows: seq<SourceRow>, i: int)
    requires 0 <= i < |rows| && rows[i].visibleCount.None? && rows[i].totalDuration.None?
    ensures var filled := rows[i := rows[i].(visibleCount := Some(0), totalDuration := Some(0))];
      TotalShows(filled) == TotalShows(rows) && TotalDuration(filled) == TotalDuration(rows)
  {
    var filled := rows[i := rows[i].(visibleCount := Some(0), totalDuration := Some(0))];
    assert rows == rows[..i] + [rows[i]] + rows[i + 1..];
    assert filled == rows[..i] + [filled[i]] + rows[i + 1..];
    TotalsAppend(rows[..i] + [rows[i]], rows[i + 1..]);
    TotalsAppend(rows[..i], [rows[i]]);
    TotalsAppend(rows[..i] + [filled[i]], rows[i + 1..]);
    TotalsAppend(rows[..i], [filled[i]]);
    assert [rows[i]][..0] == [] && [filled[i]][..0] == [];
  }

  /** With no negative counters the totals are not negative and bound every row's counter. */
  lemma {:induction false} TotalsBoundRows(rows: seq<SourceRow>, i: int)
    requires forall j :: 0 <= j < |rows| ==> rows[j].visibleCount.GetOr(0) >= 0
    requires 0 <= i < |rows|
    ensures 0 <= rows[i].visibleCount.GetOr(0) <= TotalShows(rows)
    decreases |rows|
  {
    NonNegativeShows(rows[..|rows| - 1]);
    if i < |rows| - 1 {
      TotalsBoundRows(rows[..|rows| - 1], i);
    }
  }

  lemma {:induction false} NonNegativeShows(rows: seq<SourceRow>)
    requires forall j :: 0 <= j < |rows| ==> rows[j].visibleCount.GetOr(0) >= 0
    ensures TotalShows(rows) >= 0
    decreases |rows|
  {
    if rows != [] {
      NonNegativeShows(rows[..|rows| - 1]);
    }
  }

  /** The three labels: active names are "Active Now"; otherwise a first matching row seen
      less than two minutes ago is "Recently Active"; everything else is "Not Active",
      including a row seen exactly two minutes ago. */
  lemma SessionClassification(rows: seq<SourceRow>, active: seq<string>, name: string, now: int)
    ensures SessionOf(rows, active, name, now) == ActiveNow <==> name in active
    ensures SessionOf(rows, active, name, now) == RecentlyActive <==>
      name !in active &&
      exists k :: 0 <= k < |rows| && rows[k].sourceName == name
                  && (forall j :: 0 <= j < k ==> rows[j].sourceName != name)
                  && rows[k].lastVisibleAt.Some? && now - rows[k].lastVisibleAt.value < RecentWindow
  {
    var found := Find(rows, name);
    if found.Some? {
      var k :| 0 <= k < |rows| && rows[k] == found.value && found.value.sourceName == name
        && forall j :: 0 <= j < k ==> rows[j].sourceName != name;
    }
  }

  /** Two minutes to the millisecond is no longer recent. */
  lemma WindowIsExclusive(row: SourceRow, t: int)
    requires row.lastVisibleAt == Some(t)
    ensures SessionOf([row], [], row.sourceName, t + RecentWindow) == NotActive
    ensures SessionOf([row], [], row.sourceName, t + RecentWindow - 1) == RecentlyActive
  {
    assert Find([row], row.sourceName) == Some(row);
  }

  /** A row is highlighted exactly when its session label is "Active Now", and the raw name
      is shown under the display name exactly when a non-empty title differs from it. */
  lemma RowViewConsistent(rows: seq<SourceRow>, active: seq<string>, row: SourceRow, now: int)
    ensures var v := RowViewOf(rows, active, row, now);
      && (v.isActive <==> row.sourceName in active)
      && (v.isActive <==> v.session == ActiveNow)
      && (v.subtitle.Some? <==>
            row.title.Some? && row.title.value != "" && row.title.value != row.sourceName)
      && (v.subtitle.None? ==> v.displayName == row.sourceName)
  {
    SessionClassification(rows, active, row.sourceName, now);
  }

  /** A replayed snapshot leaves the state as the first delivery did. */
  method ReplayedSnapshot(v: RealTimeView, m: Incoming)
    requires Replaces(m)
    modifies v
    ensures v.data == m.msg.data.GetOr([]) && v.activeSources == m.msg.activeSources.GetOr([])
  {
    v.OnMessage(m);
    var d, a := v.data, v.activeSources;
    v.OnMessage(m);
    assert v.data == d && v.activeSources == a;
  }
}
