/** The source-visibility tracker shared by both OBS clients (`handleSourceVisibilityChange`
    in backend/server.js and backend/obs-websocket.js): which sources are on screen, since when,
    and which `source_log` update each real transition issues. */
module Tracker {
  import opened Wrappers
  import opened Dates
  import SourceLog

  /** One reading of the wall clock: `Date.now()` and `new Date().toISOString()`. */
  datatype Instant = Instant(ms: int, iso: string)

  /** The two maps: name -> ISO timestamp of the show, name -> `Date.now()` at the show. */
  datatype State = State(activeSources: map<string, string>, sourceSessions: map<string, int>)

  /** A (name, isVisible) pair as an event or a scene-item list reports it. */
  datatype Signal = Signal(name: string, isVisible: bool)

  /** What one transition leaves behind: the new maps and the update it hands to the table. */
  datatype Outcome = Outcome(state: State, update: Option<SourceLog.Update>)

  const Empty := State(map[], map[])

  /** Every mutation touches both maps, so their key sets stay equal. */
  predicate Consistent(s: State) {
    s.activeSources.Keys == s.sourceSessions.Keys
  }

  /** `n` has the same entry (or none) in both states. */
  predicate Untouched(s: State, t: State, n: string) {
    && (n in s.activeSources <==> n in t.activeSources)
    && (n in s.activeSources && n in t.activeSources ==>
          s.activeSources[n] == t.activeSources[n])
    && (n in s.sourceSessions <==> n in t.sourceSessions)
    && (n in s.sourceSessions && n in t.sourceSessions ==>
          s.sourceSessions[n] == t.sourceSessions[n])
  }

  /** `Math.floor((now - start) / 1000)`: whole seconds, not clamped. */
  function SessionSeconds(startMs: int, nowMs: int): (d: int)
    ensures d * 1000 <= nowMs - startMs < d * 1000 + 1000
    ensures d >= 0 <==> nowMs >= startMs
  {
    (nowMs - startMs) / 1000
  }

  /** `handleSourceVisibilityChange(name, isVisible)` at instant `now`. */
  function Step(s: State, name: string, isVisible: bool, now: Instant): (o: Outcome)
    requires Consistent(s)
    ensures Consistent(o.state)
    ensures name in o.state.activeSources <==> isVisible
    ensures o.update.Some? <==> isVisible != (name in s.activeSources)
    ensures o.update.Some? ==> o.update.value.sourceName == name
                               && o.update.value.isVisible == isVisible
                               && o.update.value.timestamp == now.iso
    ensures forall n :: n != name ==> Untouched(s, o.state, n)
  {
    if isVisible then
      if name in s.activeSources then Outcome(s, None)
      else
        Outcome(State(s.activeSources[name := now.iso], s.sourceSessions[name := now.ms]),
                Some(SourceLog.Update(name, true, now.iso, 0)))
    else if name in s.activeSources then
      var duration := SessionSeconds(s.sourceSessions[name], now.ms);
      Outcome(State(s.activeSources - {name}, s.sourceSessions - {name}),
              Some(SourceLog.Update(name, false, now.iso, duration)))
    else Outcome(s, None)
  }

  /** The updates an outcome hands to the table, as a list. */
  function UpdatesOf(u: Option<SourceLog.Update>): seq<SourceLog.Update> {
    match u
    case Some(v) => [v]
    case None => []
  }

  /** The updates applied in order, all under the same date. */
  function ApplyUpdates(rows: SourceLog.Rows, date: string, us: seq<SourceLog.Update>): SourceLog.Rows
    decreases |us|
  {
    if us == [] then rows else ApplyUpdates(SourceLog.Apply(rows, date, us[0]), date, us[1..])
  }

  /** A run of signals (the items of one scene-item list) and the updates it issues, in order. */
  datatype Run = Run(state: State, updates: seq<SourceLog.Update>)

  function ApplyAll(s: State, signals: seq<Signal>, now: Instant): (r: Run)
    requires Consistent(s)
    ensures Consistent(r.state)
    decreases |signals|
  {
    if signals == [] then Run(s, [])
    else
      var o := Step(s, signals[0].name, signals[0].isVisible, now);
      var rest := ApplyAll(o.state, signals[1..], now);
      Run(rest.state, UpdatesOf(o.update) + rest.updates)
  }

  // ---------------------------------------------------------------------------------------
  // Single transitions

  /** A show of an inactive source opens a session starting now and issues one show update. */
  lemma ShowOpensSession(s: State, name: string, now: Instant)
    requires Consistent(s) && name !in s.activeSources
    ensures var o := Step(s, name, true, now);
      && o.state.activeSources == s.activeSources[name := now.iso]
      && o.state.sourceSessions == s.sourceSessions[name := now.ms]
      && o.update == Some(SourceLog.Update(name, true, now.iso, 0))
  {
  }

  /** A repeated show changes nothing: the original session start stays, nothing is written. */
  lemma RepeatedShowIsNoop(s: State, name: string, now: Instant)
    requires Consistent(s) && name in s.activeSources
    ensures Step(s, name, true, now) == Outcome(s, None)
  {
  }

  /** A hide of an active source removes it from both maps and writes the whole seconds since
      the session start; that duration is non-negative exactly when the clock did not go back. */
  lemma HideClosesSession(s: State, name: string, now: Instant)
    requires Consistent(s) && name in s.activeSources
    ensures var o := Step(s, name, false, now);
      var d := (now.ms - s.sourceSessions[name]) / 1000;
      && o.state == State(s.activeSources - {name}, s.sourceSessions - {name})
      && o.update == Some(SourceLog.Update(name, false, now.iso, d))
      && d * 1000 <= now.ms - s.sourceSessions[name] < d * 1000 + 1000
      && (d >= 0 <==> now.ms >= s.sourceSessions[name])
  {
  }

  /** A hide of a source that is not active changes nothing and writes nothing. */
  lemma HideOfInactiveIsNoop(s: State, name: string, now: Instant)
    requires Consistent(s) && name !in s.activeSources
    ensures Step(s, name, false, now) == Outcome(s, None)
  {
  }

  /** Applying the same (name, isVisible) pair a second time, at any later instant, changes
      nothing and writes nothing. */
  lemma StepIdempotent(s: State, name: string, isVisible: bool, t1: Instant, t2: Instant)
    requires Consistent(s)
    ensures var o := Step(s, name, isVisible, t1);
      Step(o.state, name, isVisible, t2) == Outcome(o.state, None)
  {
  }

  /** Signals for two different sources commute: the order in which a poll result and a live
      event for different names arrive does not change the resulting maps. */
  lemma DistinctNamesCommute(s: State, a: Signal, b: Signal, now: Instant)
    requires Consistent(s) && a.name != b.name
    ensures var ab := Step(Step(s, a.name, a.isVisible, now).state, b.name, b.isVisible, now);
      var ba := Step(Step(s, b.name, b.isVisible, now).state, a.name, a.isVisible, now);
      ab.state == ba.state
  {
    var ab := Step(Step(s, a.name, a.isVisible, now).state, b.name, b.isVisible, now).state;
    var ba := Step(Step(s, b.name, b.isVisible, now).state, a.name, a.isVisible, now).state;
    forall n
      ensures Untouched(ab, ba, n)
    {
      CommuteAt(s, a, b, now, n);
    }
    UntouchedEverywhere(ab, ba);
  }

  lemma CommuteAt(s: State, a: Signal, b: Signal, now: Instant, n: string)
    requires Consistent(s) && a.name != b.name
    ensures Untouched(Step(Step(s, a.name, a.isVisible, now).state, b.name, b.isVisible, now).state,
                      Step(Step(s, b.name, b.isVisible, now).state, a.name, a.isVisible, now).state, n)
  {
    var sa := Step(s, a.name, a.isVisible, now).state;
    var sb := Step(s, b.name, b.isVisible, now).state;
    if n != a.name && n != b.name {
      assert Untouched(s, sa, n) && Untouched(sa, Step(sa, b.name, b.isVisible, now).state, n);
      assert Untouched(s, sb, n) && Untouched(sb, Step(sb, a.name, a.isVisible, now).state, n);
    }
  }

  /** Two states that agree on every name are equal. */
  lemma UntouchedEverywhere(s: State, t: State)
    requires forall n :: Untouched(s, t, n)
    ensures s == t
  {
    forall n
      ensures n in s.activeSources <==> n in t.activeSources
      ensures n in s.sourceSessions <==> n in t.sourceSessions
    {
      assert Untouched(s, t, n);
    }
    forall n | n in s.activeSources
      ensures s.activeSources[n] == t.activeSources[n]
    {
      assert Untouched(s, t, n);
    }
    forall n | n in s.sourceSessions
      ensures s.sourceSessions[n] == t.sourceSessions[n]
    {
      assert Untouched(s, t, n);
    }
    assert s.activeSources == t.activeSources;
    assert s.sourceSessions == t.sourceSessions;
  }

  // ---------------------------------------------------------------------------------------
  // Runs of signals

  /** A run never touches a source it does not mention. */
  lemma {:induction false} RunLeavesOthers(s: State, signals: seq<Signal>, now: Instant, n: string)
    requires Consistent(s)
    requires forall i :: 0 <= i < |signals| ==> signals[i].name != n
    ensures Untouched(s, ApplyAll(s, signals, now).state, n)
    decreases |signals|
  {
    if signals != [] {
      var o := Step(s, signals[0].name, signals[0].isVisible, now);
      RunLeavesOthers(o.state, signals[1..], now, n);
    }
  }

  /** No name is reported both visible and hidden in the same list. */
  predicate SameVisibilityPerName(signals: seq<Signal>) {
    forall i, j :: 0 <= i < |signals| && 0 <= j < |signals| && signals[i].name == signals[j].name ==>
      signals[i].isVisible == signals[j].isVisible
  }

  /** Every signal of the list already holds in `s`. */
  predicate AgreesWith(s: State, signals: seq<Signal>) {
    forall i :: 0 <= i < |signals| ==> (signals[i].name in s.activeSources <==> signals[i].isVisible)
  }

  /** After a run in which no name is reported both ways, the tracker agrees with every signal. */
  lemma {:induction false} RunEstablishesAgreement(s: State, signals: seq<Signal>, now: Instant)
    requires Consistent(s) && SameVisibilityPerName(signals)
    ensures AgreesWith(ApplyAll(s, signals, now).state, signals)
    decreases |signals|
  {
    if signals != [] {
      var x := signals[0];
      var rest := signals[1..];
      var o := Step(s, x.name, x.isVisible, now);
      assert SameVisibilityPerName(rest) by {
        forall i, j | 0 <= i < |rest| && 0 <= j < |rest| && rest[i].name == rest[j].name
          ensures rest[i].isVisible == rest[j].isVisible
        {
          assert rest[i] == signals[i + 1] && rest[j] == signals[j + 1];
        }
      }
      RunEstablishesAgreement(o.state, rest, now);
      var final := ApplyAll(s, signals, now).state;
      if k :| 0 <= k < |rest| && rest[k].name == x.name {
        assert rest[k] == signals[k + 1];
      } else {
        RunLeavesOthers(o.state, rest, now, x.name);
      }
      forall i | 0 <= i < |signals|
        ensures signals[i].name in final.activeSources <==> signals[i].isVisible
      {
        if i > 0 {
          assert signals[i] == rest[i - 1];
        }
      }
    }
  }

  /** A run over signals that already hold changes nothing and writes nothing. */
  lemma {:induction false} AgreeingRunIsNoop(s: State, signals: seq<Signal>, now: Instant)
    requires Consistent(s) && AgreesWith(s, signals)
    ensures ApplyAll(s, signals, now) == Run(s, [])
    decreases |signals|
  {
    if signals != [] {
      assert AgreesWith(s, signals[1..]) by {
        forall i | 0 <= i < |signals| - 1
          ensures signals[1..][i].name in s.activeSources <==> signals[1..][i].isVisible
        {
          assert signals[1..][i] == signals[i + 1];
        }
      }
      AgreeingRunIsNoop(s, signals[1..], now);
    }
  }

  /** Feeding the same scene-item list a second time (backend/server.js processes every
      `GetSceneItemList` response twice) changes nothing and writes nothing, as long as the list
      does not report one name both visible and hidden. */
  lemma ReplayIsNoop(s: State, signals: seq<Signal>, t1: Instant, t2: Instant)
    requires Consistent(s) && SameVisibilityPerName(signals)
    ensures var r := ApplyAll(s, signals, t1);
      ApplyAll(r.state, signals, t2) == Run(r.state, [])
  {
    RunEstablishesAgreement(s, signals, t1);
    AgreeingRunIsNoop(ApplyAll(s, signals, t1).state, signals, t2);
  }

  /** ... but a list that reports one source both enabled and disabled (the same source placed
      twice in a scene, or in two polled scenes) shows and hides it again on every replay, so
      each poll cycle adds to its count. */
  lemma ConflictingListRecounts(name: string, t1: Instant, t2: Instant)
    ensures var signals := [Signal(name, true), Signal(name, false)];
      var first := ApplyAll(Empty, signals, t1);
      var second := ApplyAll(first.state, signals, t2);
      && first.state == Empty && second.state == Empty
      && |first.updates| == 2 && |second.updates| == 2
      && second.updates[0] == SourceLog.Update(name, true, t2.iso, 0)
  {
    var signals := [Signal(name, true), Signal(name, false)];
    var o1 := Step(Empty, name, true, t1);
    assert ApplyAll(o1.state, signals[1..], t1).state == Empty;
    var o2 := Step(Empty, name, true, t2);
    assert ApplyAll(o2.state, signals[1..], t2).state == Empty;
  }

  /** Updates issued for `name`, by kind. */
  function CountUpdates(us: seq<SourceLog.Update>, name: string, isVisible: bool): nat {
    if us == [] then 0
    else (if us[0].sourceName == name && us[0].isVisible == isVisible then 1 else 0)
         + CountUpdates(us[1..], name, isVisible)
  }

  /** Shows and hides pair up: for every source, the shows a run issues minus the hides it issues
      is 1 if the run leaves the source active where it found it inactive, -1 in the opposite
      case, and 0 otherwise. */
  lemma {:induction false} ShowsAndHidesPair(s: State, signals: seq<Signal>, now: Instant, name: string)
    requires Consistent(s)
    ensures var r := ApplyAll(s, signals, now);
      CountUpdates(r.updates, name, true) - CountUpdates(r.updates, name, false)
        == (if name in r.state.activeSources then 1 else 0) - (if name in s.activeSources then 1 else 0)
    decreases |signals|
  {
    if signals != [] {
      var o := Step(s, signals[0].name, signals[0].isVisible, now);
      var rest := ApplyAll(o.state, signals[1..], now);
      ShowsAndHidesPair(o.state, signals[1..], now, name);
      CountAppend(UpdatesOf(o.update), rest.updates, name, true);
      CountAppend(UpdatesOf(o.update), rest.updates, name, false);
    }
  }

  lemma {:induction false} CountAppend(a: seq<SourceLog.Update>, b: seq<SourceLog.Update>, name: string, v: bool)
    ensures CountUpdates(a + b, name, v) == CountUpdates(a, name, v) + CountUpdates(b, name, v)
    decreases |a|
  {
    if a == [] {
      assert a + b == b;
    } else {
      assert (a + b)[0] == a[0] && (a + b)[1..] == a[1..] + b;
      CountAppend(a[1..], b, name, v);
    }
  }

  // ---------------------------------------------------------------------------------------
  // Tracker and table together

  /** The tracker's maps and the table's rows, as one transition leaves them. */
  datatype World = World(tracker: State, rows: SourceLog.Rows)

  /** One transition with its update written under the date of the instant it happened. */
  function Deliver(w: World, signal: Signal, now: Instant): (r: World)
    requires Consistent(w.tracker)
    ensures Consistent(r.tracker)
  {
    var o := Step(w.tracker, signal.name, signal.isVisible, now);
    World(o.state, ApplyUpdates(w.rows, DatePart(now.iso), UpdatesOf(o.update)))
  }

  /** A show at `t1` followed by a hide at `t2` of the same day adds one to the day's count and
      exactly `floor((t2 - t1) / 1000)` seconds to its duration. */
  lemma ShowThenHideSameDay(w: World, name: string, t1: Instant, t2: Instant)
    requires Consistent(w.tracker) && name !in w.tracker.activeSources
    requires DatePart(t1.iso) == DatePart(t2.iso)
    ensures var after := Deliver(Deliver(w, Signal(name, true), t1), Signal(name, false), t2);
      var key := SourceLog.Key(DatePart(t1.iso), name);
      && after.tracker == w.tracker
      && key in after.rows
      && after.rows[key].visibleCount == (if key in w.rows then w.rows[key].visibleCount + 1 else 1)
      && after.rows[key].totalDuration
           == (if key in w.rows then w.rows[key].totalDuration else 0) + (t2.ms - t1.ms) / 1000
  {
    var date := DatePart(t1.iso);
    var mid := Deliver(w, Signal(name, true), t1);
    ApplyOne(w.rows, date, SourceLog.Update(name, true, t1.iso, 0));
    ApplyOne(mid.rows, date, SourceLog.Update(name, false, t2.iso, (t2.ms - t1.ms) / 1000));
    assert mid.tracker.sourceSessions[name] == t1.ms;
    assert mid.tracker.activeSources - {name} == w.tracker.activeSources;
    assert mid.tracker.sourceSessions - {name} == w.tracker.sourceSessions;
  }

  /** A session that straddles midnight: the count goes to the show's date and the duration to
      the hide's date, where, lacking a row, it is dropped. */
  lemma MidnightDropsDuration(w: World, name: string, t1: Instant, t2: Instant)
    requires Consistent(w.tracker) && name !in w.tracker.activeSources
    requires DatePart(t1.iso) != DatePart(t2.iso)
    requires SourceLog.Key(DatePart(t2.iso), name) !in w.rows
    ensures var after := Deliver(Deliver(w, Signal(name, true), t1), Signal(name, false), t2);
      var shown := SourceLog.Key(DatePart(t1.iso), name);
      && after.rows.Keys == w.rows.Keys + {shown}
      && after.rows[shown].totalDuration == (if shown in w.rows then w.rows[shown].totalDuration else 0)
  {
    var mid := Deliver(w, Signal(name, true), t1);
    ApplyOne(w.rows, DatePart(t1.iso), SourceLog.Update(name, true, t1.iso, 0));
    ApplyOne(mid.rows, DatePart(t2.iso),
      SourceLog.Update(name, false, t2.iso, SessionSeconds(mid.tracker.sourceSessions[name], t2.ms)));
  }

  /** The daily scenario: "Camera1" shown at 0 s, hidden at 47 s, shown at 100 s, hidden at
      110 s, all on one day, leaves a row with count 2 and 57 seconds. */
  lemma CameraScenario(date: string)
    requires 'T' !in date
    ensures var t0 := Instant(0, date + "T00:00:00.000Z");
      var t47 := Instant(47000, date + "T00:00:47.000Z");
      var t100 := Instant(100000, date + "T00:01:40.000Z");
      var t110 := Instant(110000, date + "T00:01:50.000Z");
      var w1 := Deliver(Deliver(World(Empty, map[]), Signal("Camera1", true), t0), Signal("Camera1", false), t47);
      var w2 := Deliver(Deliver(w1, Signal("Camera1", true), t100), Signal("Camera1", false), t110);
      var key := SourceLog.Key(date, "Camera1");
      && key in w1.rows && w1.rows[key].visibleCount == 1 && w1.rows[key].totalDuration == 47
      && key in w2.rows && w2.rows[key].visibleCount == 2 && w2.rows[key].totalDuration == 57
      && w2.tracker == Empty
  {
    var t0 := Instant(0, date + "T00:00:00.000Z");
    var t47 := Instant(47000, date + "T00:00:47.000Z");
    var t100 := Instant(100000, date + "T00:01:40.000Z");
    var t110 := Instant(110000, date + "T00:01:50.000Z");
    assert date + "T00:00:00.000Z" == date + "T" + "00:00:00.000Z";
    assert date + "T00:00:47.000Z" == date + "T" + "00:00:47.000Z";
    assert date + "T00:01:40.000Z" == date + "T" + "00:01:40.000Z";
    assert date + "T00:01:50.000Z" == date + "T" + "00:01:50.000Z";
    DatePartOfTimestamp(date, "00:00:00.000Z");
    DatePartOfTimestamp(date, "00:00:47.000Z");
    DatePartOfTimestamp(date, "00:01:40.000Z");
    DatePartOfTimestamp(date, "00:01:50.000Z");
    var w0 := World(Empty, map[]);
    ShowThenHideSameDay(w0, "Camera1", t0, t47);
    var w1 := Deliver(Deliver(w0, Signal("Camera1", true), t0), Signal("Camera1", false), t47);
    ShowThenHideSameDay(w1, "Camera1", t100, t110);
  }

  // ---------------------------------------------------------------------------------------
  // The maps as the process holds them

  /** The module-level `activeSources` / `sourceSessions` Maps of one client, writing to the
      shared `source_log` table. */
  class VisibilityTracker {
    var activeSources: map<string, string>
    var sourceSessions: map<string, int>
    const log: SourceLog.SourceLogTable

    function Snapshot(): State
      reads this
    {
      State(activeSources, sourceSessions)
    }

    predicate Valid()
      reads this
    {
      Consistent(Snapshot())
    }

    constructor (log: SourceLog.SourceLogTable)
      ensures Valid() && Snapshot() == Empty && this.log == log
    {
      activeSources := map[];
      sourceSessions := map[];
      this.log := log;
    }

    /** `handleSourceVisibilityChange(name, isVisible)` with `updateSourceInDatabase`. */
    method HandleSourceVisibilityChange(name: string, isVisible: bool, now: Instant)
      requires Valid()
      modifies this, log
      ensures Valid()
      ensures var o := Step(old(Snapshot()), name, isVisible, now);
        && Snapshot() == o.state
        && log.rows == ApplyUpdates(old(log.rows), DatePart(now.iso), UpdatesOf(o.update))
    {
      if isVisible {
        if name !in activeSources {
          activeSources := activeSources[name := now.iso];
          sourceSessions := sourceSessions[name := now.ms];
          log.UpdateSourceInDatabase(DatePart(now.iso), SourceLog.Update(name, true, now.iso, 0));
        }
      } else if name in activeSources {
        var sessionStart := sourceSessions[name];
        var duration := SessionSeconds(sessionStart, now.ms);
        activeSources := activeSources - {name};
        sourceSessions := sourceSessions - {name};
        log.UpdateSourceInDatabase(DatePart(now.iso), SourceLog.Update(name, false, now.iso, duration));
      }
    }

    /** Every signal of a list in turn (the `forEach` over `sceneItems`). */
    method HandleAll(signals: seq<Signal>, now: Instant)
      requires Valid()
      modifies this, log
      ensures Valid()
      ensures var r := ApplyAll(old(Snapshot()), signals, now);
        && Snapshot() == r.state
        && log.rows == ApplyUpdates(old(log.rows), DatePart(now.iso), r.updates)
    {
      var i := 0;
      while i < |signals|
        invariant 0 <= i <= |signals| && Valid()
        invariant ApplyAll(Snapshot(), signals[i..], now).state == ApplyAll(old(Snapshot()), signals, now).state
        invariant ApplyUpdates(log.rows, DatePart(now.iso), ApplyAll(Snapshot(), signals[i..], now).updates)
                  == ApplyUpdates(old(log.rows), DatePart(now.iso), ApplyAll(old(Snapshot()), signals, now).updates)
      {
        ghost var before := Snapshot();
        ghost var rowsBefore := log.rows;
        HandleSourceVisibilityChange(signals[i].name, signals[i].isVisible, now);
        assert signals[i..][1..] == signals[i + 1..];
        ApplyUpdatesAppend(rowsBefore, DatePart(now.iso),
          UpdatesOf(Step(before, signals[i].name, signals[i].isVisible, now).update),
          ApplyAll(Snapshot(), signals[i + 1..], now).updates);
        i := i + 1;
      }
    }

    /** The close handler's `activeSources.clear()` and `sourceSessions.clear()`: open sessions
        are dropped and no duration is written. */
    method Clear()
      modifies this
      ensures Valid() && Snapshot() == Empty
    {
      activeSources := map[];
      sourceSessions := map[];
    }
  }

  lemma ApplyOne(rows: SourceLog.Rows, date: string, u: SourceLog.Update)
    ensures ApplyUpdates(rows, date, [u]) == SourceLog.Apply(rows, date, u)
  {
    assert [u][1..] == [];
  }

  lemma {:induction false} ApplyUpdatesAppend(rows: SourceLog.Rows, date: string, a: seq<SourceLog.Update>, b: seq<SourceLog.Update>)
    ensures ApplyUpdates(rows, date, a + b) == ApplyUpdates(ApplyUpdates(rows, date, a), date, b)
    decreases |a|
  {
    if a == [] {
      assert a + b == b;
    } else {
      assert (a + b)[0] == a[0] && (a + b)[1..] == a[1..] + b;
      ApplyUpdatesAppend(SourceLog.Apply(rows, date, a[0]), date, a[1..], b);
    }
  }
}
