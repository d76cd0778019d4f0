# OBS source tracker — a verified model

This project models the core of a small OBS Studio usage tracker. A Node.js backend connects
to OBS over the OBS WebSocket 5 protocol and watches which scene items (the "sources") are on
screen. For each source it counts, per calendar day, how often the source was shown and for
how many seconds. The counts go into the `source_log` table. A browser frontend shows the
counts live, builds daily reports and CSV exports, and manages display metadata per source.

The model covers these parts:

- **The visibility tracker** (`tracker.dfy`, `source_log.dfy`, `dates.dfy`). The two maps
  `activeSources` and `sourceSessions` hold the name → show timestamp and the name → show
  milliseconds. `handleSourceVisibilityChange` turns (name, isVisible) signals into show and
  hide updates. `updateSourceInDatabase` applies each update to the row of the day it happens
  on. The tracker is a class whose methods are proved against the pure transition `Step`.
  The table is a class over a `map` from (date, name) to counters.
- **The two OBS clients.** `server_client.dfy` models the client inside `backend/server.js`,
  and `obs_client.dfy` the stand-alone `backend/obs-websocket.js`; `protocol.dfy` holds the
  frames they share. Both model the handshake gate, the dispatcher and the request listeners
  of `sendRequest`. The server's copy also models scene polling; the stand-alone copy models
  event-driven tracking. Each client is a class whose methods are proved against a pure
  transition function over a `Conn` value. That value includes the tracker and the table.
- **The frontend's pure helpers:**
  - `formatDuration` in its two versions (`duration_format.dfy`);
  - `escapeHtml` (`html_escape.dfy`);
  - the report's display name, average and CSV export (`reports.dfy`);
  - the metadata page's source selection, orphan cleanup, form validation, save request and
    bulk-delete count (`management.dfy`);
  - the real-time page's state, stat cards, session labels and table rows (`realtime.dfy`,
    with `RealTimeView` as a class over the two static fields).

The main properties:

- Feeding the tracker the same state again changes nothing. This covers a repeated signal, a
  replayed scene-item list, and the item list that `backend/server.js` processes twice. A list
  that reports one source both enabled and disabled is the exception: each replay counts it
  again.
- Signals for different sources commute.
- Shows and hides pair up.
- A show followed by a hide on the same day adds one show and the floored seconds between
  them. A session across midnight loses its duration.
- The stand-alone client ignores Hello and so never identifies itself.
- Both duration renderings read back to their input. The report version mangles negative
  numbers.
- Escaping HTML is the same as escaping each character on its own, and it can be undone.
- A CSV export without commas or newlines in its text fields splits back into the header and
  one line per item, and each line into its seven fields.

Clocks are parameters. `Instant` is one reading of `Date.now()` and `toISOString()`, and the
frontend's `now` is a number of milliseconds. JSON frames arrive already parsed, and missing
fields are `Option`s.

The code does not clamp a hide's duration: it computes
`Math.floor((Date.now() - sessionStart) / 1000)`, so a clock that steps back writes a negative
duration (`Tracker.SessionSeconds`, `SourceLog.CountersNeverDecrease`). Request ids are
`req_<milliseconds>`, so two requests sent in the same millisecond share one id
(`ServerClient.SameMillisecondIdsCollide`).

## Model

| member | source | states |
|---|---|---|
| Dates.DatePart | frontend/js/utils.js:37-39 | the date is the prefix of the ISO string before its first 'T' (the whole string when it has none), and holds no 'T' |
| Dates.DatePartOfTimestamp | backend/server.js:421-423 | a timestamp written as date + 'T' + time yields exactly that date, whatever the time part is |
| SourceLog.RecordShow | backend/server.js:352-385 | a show leaves the table's keys plus the (date, name) key, and that row stamped with the show's timestamp |
| SourceLog.AddDuration | backend/server.js:386-398 | a hide never inserts or removes a row |
| SourceLog.Apply | backend/server.js:349-399 | a show adds the (date, name) row if missing and a hide adds no row; every other row is unchanged |
| SourceLog.ShowIncrementsOrInserts | backend/obs-websocket.js:250-291 | a show adds one to an existing row's count and keeps its duration, or inserts count 1, duration 0; every other row is untouched |
| SourceLog.HideOnlyAddsDuration | backend/obs-websocket.js:292-307 | a hide adds its duration to an existing row only, changes nothing else in it, inserts nothing, and touches no other row |
| SourceLog.CountersNeverDecrease | backend/obs-websocket.js:247-308 | no row disappears and no count or duration goes down, provided hide durations are not negative |
| SourceLog.SourceLogTable.UpdateSourceInDatabase | backend/server.js:349-399 | the table after the call is the old table with the one update applied to the row of the given date |
| Tracker.SessionSeconds | backend/server.js:339-340 | the duration is the floor of the elapsed milliseconds over 1000, and is non-negative exactly when the clock did not go back |
| Tracker.Step | backend/server.js:326-347 | afterwards the name is active exactly when it is visible; an update is issued exactly when the visibility changed, for that name, kind and timestamp; both maps keep the same keys; no other name is touched |
| Tracker.ApplyAll | backend/server.js:224-229 | running a list of signals keeps both maps on the same keys |
| Tracker.ShowOpensSession | backend/server.js:330-336 | a show of an inactive source records it in both maps at the current instant and issues one show update |
| Tracker.RepeatedShowIsNoop | backend/server.js:331 | a show of an active source changes nothing and writes nothing, so the original session start is kept |
| Tracker.HideClosesSession | backend/server.js:338-345 | a hide of an active source removes it from both maps and writes the floored seconds since the session start |
| Tracker.HideOfInactiveIsNoop | backend/obs-websocket.js:231-242 | a hide of an inactive source changes nothing and writes nothing |
| Tracker.StepIdempotent | backend/obs-websocket.js:217-245 | the same (name, isVisible) pair applied again at any later instant changes nothing and writes nothing |
| Tracker.DistinctNamesCommute | backend/obs-websocket.js:223-242 | two signals for different names leave the same maps in either order |
| Tracker.RunLeavesOthers | backend/server.js:225-229 | a list of signals never touches a name it does not mention |
| Tracker.RunEstablishesAgreement | backend/server.js:314-318 | after a list that reports no name both ways, every name in it is active exactly when the list says it is visible |
| Tracker.AgreeingRunIsNoop | backend/server.js:313-319 | a list that already agrees with the maps changes nothing and writes nothing |
| Tracker.ReplayIsNoop | backend/server.js:310-324 | replaying a scene-item list that reports no name both ways, at any later instant, changes nothing and writes nothing |
| Tracker.ConflictingListRecounts | backend/server.js:224-229 | a list reporting one source shown then hidden issues a show and a hide on every replay |
| Tracker.ShowsAndHidesPair | backend/server.js:330-346 | over any list, shows minus hides for a name is the change in whether that name is active (+1, -1 or 0) |
| Tracker.Deliver | backend/server.js:326-328 | one transition with its update written under the date of the same instant keeps both maps on the same keys |
| Tracker.ShowThenHideSameDay | backend/server.js:349-399 | a show and then a hide of the same day restore the maps, add one to the day's count and add the floored seconds between them |
| Tracker.MidnightDropsDuration | backend/server.js:386-398 | across midnight the show is counted on its own day and the hide's duration is lost, because that day has no row |
| Tracker.CameraScenario | backend/obs-websocket.js:217-308 | shown at 0 s, hidden at 47 s, shown at 100 s and hidden at 110 s on one day: count 1 and 47 s after the first pair, count 2 and 57 s after the second |
| Tracker.VisibilityTracker.constructor | backend/server.js:117-119 | a new tracker has both maps empty |
| Tracker.VisibilityTracker.HandleSourceVisibilityChange | backend/obs-websocket.js:217-245 | the maps become the state `Step` gives, and the table receives exactly the update `Step` issues, under the current date |
| Tracker.VisibilityTracker.HandleAll | backend/obs-websocket.js:145-151 | processing the items one by one leaves the maps and the table as `ApplyAll` over the whole list does |
| Tracker.VisibilityTracker.Clear | backend/server.js:144-145 | both maps become empty and no duration is written |
| Protocol.Dispatch | backend/server.js:164-177 | op 0, 2, 5 and 7 (as numbers, by strict equality) go to their handlers; every other value is unrouted |
| Protocol.RequestId | backend/server.js:243 | the id is `req_` followed by digits that read back as the given millisecond |
| ServerClient.RouteFrame | backend/server.js:159-178 | a falsy frame or one without `op` is dropped, and only then is the op dispatched, so op 0 reaches Hello |
| ServerClient.AfterRequestSceneItems | backend/server.js:217-223 | when ready, asking for each scene's items appends exactly the `GetSceneItemList` requests for the named scenes, in order and under the current id, and registers one listener each; when not ready nothing changes; the tracker, the table and the handshake flags are never touched |
| ServerClient.NamedScenes | backend/server.js:298-302 | the scenes asked for are exactly those with a non-empty name, and there are no more of them than scenes |
| ServerClient.Signals | backend/server.js:314-318 | every signal has a name, there are no more signals than items, and every item with a source name yields its (name, enabled) signal |
| ServerClient.SceneItemRequests | backend/server.js:310-311 | one `GetSceneItemList` request per named scene, the i-th for the i-th named scene, all under the given id |
| ServerClient.SceneItemListeners | backend/server.js:236-276 | one not-yet-settled `GetSceneItemList` listener per named scene, all for the given id |
| ServerClient.NamedScenesAppend | backend/server.js:298-302 | the named scenes of two lists joined are those of the first list followed by those of the second: the filter keeps order and repeats |
| ServerClient.SignalsAppend | backend/server.js:314-318 | the signals of two item lists joined are those of the first followed by those of the second: the filter keeps the order the tracker depends on |
| ServerClient.AfterApplyItems | backend/server.js:313-318 | feeding items to the tracker keeps its maps on the same keys |
| ServerClient.AfterRequestResponse | backend/server.js:208-234 | the main handler's response branch keeps the tracker consistent |
| ServerClient.MainHandler | backend/server.js:180-206 | the main listener keeps the tracker consistent |
| ServerClient.Matching | backend/server.js:257-262 | the request listeners a frame settles are exactly those waiting for its op 7 request id |
| ServerClient.NotMatching | backend/server.js:260-262 | every other listener stays registered |
| ServerClient.AfterContinue | backend/server.js:264-268 | a settled listener's continuation keeps the tracker consistent |
| ServerClient.ContinueAll | backend/server.js:294-324 | all continuations of a frame, in order, keep the tracker consistent |
| ServerClient.Receive | backend/server.js:132-139 | one incoming frame keeps the tracker consistent |
| ServerClient.Close | backend/server.js:141-147 | after close the socket is closed, the client not identified, the closed socket's listeners gone and both maps empty; the table, the frames sent and the polling intervals are as before, so no duration is written |
| ServerClient.AfterSendRequest | backend/server.js:236-278 | when ready, one request frame under `req_<now>` is sent and one listener for that id registered; otherwise nothing changes; the tracker and the flags are never touched |
| ServerClient.AfterPoll | backend/server.js:283-287 | a tick sends one `GetSceneList` request when open and identified, and otherwise changes nothing |
| ServerClient.ClosedClientSendsNothing | backend/server.js:141-147 | after close every request and every poll tick is dropped by the gate |
| ServerClient.ReconnectRecountsShow | backend/server.js:143-145 | a source active at close loses its session without a duration, and its next show counts again from the new instant |
| ServerClient.IdentifiedAddsInterval | backend/server.js:195-199 | every Identified frame starts one more polling interval; close does not clear it |
| ServerClient.PolledSceneListFansOutTwice | backend/server.js:212-223 | a `GetSceneList` answer to the poll's request is taken by the main handler and by the poll's listener (lines 294-302), so each named scene's items are requested twice, all under one id, and twice as many listeners are registered |
| ServerClient.SubscriptionsValue | backend/server.js:187 | the event mask sets bits 0, 1, 4 and 5, so its value is 51 |
| ServerClient.RequestGate | backend/server.js:238-241 | a request is sent exactly when the socket is open and the handshake is done; otherwise nothing changes; it never touches the tracker |
| ServerClient.SameMillisecondIdsCollide | backend/server.js:243 | two requests sent in the same millisecond get the same id, so one response settles both listeners |
| ServerClient.DroppedFrameChangesNothing | backend/server.js:160-162 | a frame without `op` changes nothing |
| ServerClient.IgnoredFrameChangesNothing | backend/server.js:201-206 | an event, or an op other than 0, 2, 5 or 7, changes nothing |
| ServerClient.NoMatchKeepsPending | backend/server.js:257-273 | a frame that is not a request response leaves every listener registered |
| ServerClient.HandshakeCompletes | backend/server.js:180-199 | Hello then Identified sends exactly one Identify frame (version 1, mask 51) and makes requests legal |
| ServerClient.ReplayedContinuationsAreNoops | backend/server.js:311-319 | item-list continuations run on a tracker that already agrees with the list change nothing |
| ServerClient.ItemListProcessedAsOnce | backend/server.js:224-229 | an item-list response taken by the main handler and by any number of listeners leaves the tracker and table as one pass would, and removes those listeners |
| ServerClient.ServerConnection.constructor | backend/server.js:117-120 | a new client is closed, not identified, with no listeners and nothing sent |
| ServerClient.ServerConnection.OnOpen | backend/server.js:128-130 | opening the socket changes only the socket state |
| ServerClient.ServerConnection.OnClose | backend/server.js:141-147 | the state after close is `Close` of the state before |
| ServerClient.ServerConnection.OnTimeout | backend/server.js:253-255 | the timer rejects its request's promise but leaves the listener registered |
| ServerClient.ServerConnection.SendRequest | backend/server.js:236-278 | the result says whether the request was accepted (open and identified), and the state changes as `AfterSendRequest` says |
| ServerClient.ServerConnection.Poll | backend/server.js:283-287 | an interval tick asks for the scene list only while identified |
| ServerClient.ServerConnection.RequestSceneItems | backend/server.js:298-302 | the loop over the scenes leaves the state `AfterRequestSceneItems` describes |
| ServerClient.ServerConnection.ApplyItems | backend/server.js:225-229 | the loop over the items leaves the state `AfterApplyItems` describes |
| ServerClient.ServerConnection.HandleRequestResponse | backend/server.js:208-234 | the state afterwards is `AfterRequestResponse` of the state before |
| ServerClient.ServerConnection.Continue | backend/server.js:296-303 | a listener's continuation leaves the state `AfterContinue` describes |
| ServerClient.ServerConnection.HandleOBSMessage | backend/server.js:159-199 | the dispatcher leaves the state `MainHandler` describes |
| ServerClient.ServerConnection.RunContinuations | backend/server.js:264-268 | the continuations in order leave the state `ContinueAll` describes |
| ServerClient.ServerConnection.HandleMessage | backend/server.js:132-139 | a frame leaves the state `Receive` describes |
| ObsClient.RouteFrame | backend/obs-websocket.js:59-83 | a frame whose `op` is falsy is dropped, so Hello (op 0) is never routed; ops 2, 5 and 7 are |
| ObsClient.AfterSendRequest | backend/obs-websocket.js:154-196 | a request is sent under `req_<now>` and one listener for that id registered exactly when open and identified; otherwise nothing changes; the tracker is never touched |
| ObsClient.ItemSignals | backend/obs-websocket.js:147-150 | every item becomes one signal, in order, named or not |
| ObsClient.AfterApplyItems | backend/obs-websocket.js:145-151 | feeding items to the tracker keeps its maps on the same keys |
| ObsClient.AfterEvent | backend/obs-websocket.js:108-131 | an event keeps the tracker consistent |
| ObsClient.AfterRequestResponse | backend/obs-websocket.js:133-152 | a request response keeps the tracker consistent |
| ObsClient.MainHandler | backend/obs-websocket.js:67-82 | the dispatcher keeps the tracker consistent |
| ObsClient.Receive | backend/obs-websocket.js:32-39 | one frame keeps the tracker consistent and never sends an Identify frame |
| ObsClient.ReceiveAll | backend/obs-websocket.js:32-35 | any sequence of frames keeps the tracker consistent |
| ObsClient.Close | backend/obs-websocket.js:41-47 | after close the socket is closed, the client not identified, the closed socket's listeners gone and both maps empty; the table and the frames sent are as before, so no duration is written |
| ObsClient.AfterIdentified | backend/obs-websocket.js:100-106 | the client becomes identified and, on an open socket, sends one `GetCurrentProgramScene` request and registers its listener; the tracker is not touched |
| ObsClient.IgnoredFrameChangesNothing | backend/obs-websocket.js:60-81 | a frame the guard drops (falsy `op`, Hello included) or whose op the switch does not know changes nothing |
| ObsClient.ClosedClientSendsNothing | backend/obs-websocket.js:41-46 | after close every request is dropped by the gate, and a source still on screen is counted as a new show |
| ObsClient.SubscriptionsValue | backend/obs-websocket.js:92 | the mask is 49, and bit 1 (config events) is not requested |
| ObsClient.RouteVersusServer | backend/obs-websocket.js:60-63 | this guard differs from the server's only on a present but falsy op, and Hello is one of those |
| ObsClient.HelloIsIgnored | backend/obs-websocket.js:85-98 | a Hello frame changes nothing, so the Identify message is never sent |
| ObsClient.NeverIdentifies | backend/obs-websocket.js:68-70 | whatever OBS sends, the client never writes an Identify frame |
| ObsClient.StaysIdleWithoutIdentified | backend/obs-websocket.js:100-106 | without an Identified frame the client never becomes identified and sends nothing |
| ObsClient.IdentifiedAsksForScene | backend/obs-websocket.js:198-208 | Identified on an open socket marks the client identified and sends one GetCurrentProgramScene request |
| ObsClient.EnableStateEventIsOneStep | backend/obs-websocket.js:120-126 | a SceneItemEnableStateChanged event is exactly one tracker transition for its item |
| ObsClient.OtherEventsChangeNothing | backend/obs-websocket.js:109-130 | every other event changes nothing |
| ObsClient.ItemListAppliedOnce | backend/obs-websocket.js:210-215 | an item list is applied exactly once, item by item, unnamed items included |
| ObsClient.ObsConnection.constructor | backend/obs-websocket.js:14-17 | a new client is closed, not identified, with no listeners and nothing sent |
| ObsClient.ObsConnection.OnOpen | backend/obs-websocket.js:28-30 | opening the socket changes only the socket state |
| ObsClient.ObsConnection.OnClose | backend/obs-websocket.js:43-45 | the state after close is `Close` of the state before |
| ObsClient.ObsConnection.SendRequest | backend/obs-websocket.js:156-194 | the result says whether the request was accepted, and the state changes as `AfterSendRequest` says |
| ObsClient.ObsConnection.HandleEvent | backend/obs-websocket.js:114-126 | the state afterwards is `AfterEvent` of the state before |
| ObsClient.ObsConnection.HandleRequestResponse | backend/obs-websocket.js:134-151 | the state afterwards is `AfterRequestResponse` of the state before |
| ObsClient.ObsConnection.HandleMessage | backend/obs-websocket.js:59-83 | a frame leaves the state `Receive` describes |
| DurationFormat.JsRem | frontend/js/reports.js:146 | JavaScript's `%`: the ordinary remainder for a non-negative dividend, otherwise a value in (-divisor, 0]; the dividend minus the result is always a multiple of the divisor, which together fixes the truncated remainder |
| DurationFormat.Decompose | frontend/js/utils.js:6-8 | for a positive number the hours, minutes and seconds add back up to it, with minutes and seconds below 60 and hours not negative |
| DurationFormat.FormatUtils | frontend/js/utils.js:3-17 | a non-positive number renders as `0s`, and every rendering ends in `s`; its read-back is `FormatUtilsRoundTrip` |
| DurationFormat.FormatReports | frontend/js/reports.js:142-151 | zero renders as `0s`, and every rendering ends in `s`; its read-back is `FormatReportsRoundTrip` |
| DurationFormat.Pad2 | frontend/js/utils.js:11 | the padded text is all digits, has the number's value, and is two characters long below 100 |
| DurationFormat.DecompositionIsExact | frontend/js/utils.js:6-8 | for a positive number, hours, minutes and seconds recompose it, with minutes and seconds below 60 |
| DurationFormat.FormatUtilsRoundTrip | frontend/js/utils.js:3-17 | reading `Utils.formatDuration`'s output back gives the number, for every non-negative integer |
| DurationFormat.FormatReportsRoundTrip | frontend/js/reports.js:142-151 | reading the report page's `formatDuration` output back gives the number, for every non-negative integer |
| DurationFormat.FormatUtilsShape | frontend/js/utils.js:10-16 | three words from an hour up, two from a minute up, one below; the first word is the leading quantity unpadded (the hours, the minutes, or the seconds below a minute) and every later word is two digits and a unit |
| DurationFormat.FormatUtilsNonPositive | frontend/js/utils.js:4 | the output is `0s` exactly when the number is not positive |
| DurationFormat.FormatReportsNegative | frontend/js/reports.js:143-150 | a negative number renders as its remainder by 60 alone, so -65 and -5 both give `-5s` |
| DurationFormat.RenderingsAgree | frontend/js/reports.js:144-150 | the two renderings read back to the same number, and are the same text below a minute |
| HtmlEscape.ReplaceAll | frontend/js/utils.js:48 | after replacing every `c` by a text without `c`, no `c` is left |
| HtmlEscape.EscapeHtml | frontend/js/utils.js:46 | a missing or empty input gives the empty string |
| HtmlEscape.ChainIsPerCharacter | frontend/js/utils.js:47-52 | the five global replacements, in the source's order, are the same as replacing each character by its own entity |
| HtmlEscape.EscapeHtmlIsPerCharacter | frontend/js/management.js:422-430 | the management page's copy escapes a non-empty input character by character too |
| HtmlEscape.NoRawSpecials | frontend/js/utils.js:45-53 | the output holds no raw `<`, `>`, `"` or `'` |
| HtmlEscape.PlainTextUnchanged | frontend/js/management.js:424-429 | text without special characters comes back unchanged |
| HtmlEscape.UnescapeEscape | frontend/js/utils.js:48-52 | decoding the five entities gives back the input, so escaping loses nothing |
| HtmlEscape.AmpersandFirst | frontend/js/utils.js:48-49 | `<` escapes to `&lt;`; had `&` been replaced last it would have become `&amp;lt;` |
| Text.OrElse | frontend/js/realtime.js:152 | JavaScript's or-operator on a text field: a present, non-empty field wins, and a missing or empty one gives the fallback |
| Reports.DisplayName | frontend/js/reports.js:61 | the display name is the source name, or a non-empty title |
| Reports.SubtitleIffDistinctTitle | frontend/js/reports.js:70-71 | the raw name is shown under the display name exactly when there is a non-empty title other than the name |
| Reports.AverageDuration | frontend/js/reports.js:62-63 | with shows, the average is within half a second of total / count (lower bound included); without shows it is 0 |
| Reports.AverageIsNearest | frontend/js/reports.js:104-105 | any integer within half a unit of total / count, lower bound included, is the average |
| Reports.AverageOfExact | frontend/js/reports.js:62-63 | an exact quotient is its own average, and a row never shown averages 0 |
| Reports.RowFields | frontend/js/reports.js:107-115 | an item's line has one field per header column; the first four are wrapped in double quotes and the three numbers hold none |
| Reports.RowLine | frontend/js/reports.js:107-115 | an item's line starts with its quoted source name and a comma |
| Reports.Average | frontend/js/reports.js:104-105 | without shows the average is 0; with shows it is within half a second of total / count, lower bound included |
| Reports.ExportCsv | frontend/js/reports.js:95-98 | nothing is exported exactly when the report is empty |
| Reports.RowSplitsIntoFields | frontend/js/reports.js:107-115 | an item's line without commas in its text splits back into its seven fields |
| Reports.CsvLines | frontend/js/reports.js:100-117 | the export splits into the header line and then one line per item, in order |
| Reports.CsvRowReadsBack | frontend/js/reports.js:103-116 | each item's line reads back as its quoted name, display name, category (or empty) and brand (or empty), then its count, total and average |
| Management.Dedupe | frontend/js/management.js:164 | the unique names hold no duplicate and have the same members as the input |
| Management.DedupeKeepsFirstOccurrenceOrder | frontend/js/management.js:465 | the unique names are ordered by their first occurrence |
| Management.Without | frontend/js/management.js:165 | the filter keeps exactly the names not excluded, and never more names than it was given |
| Management.WithoutKeepsOrder | frontend/js/management.js:165 | the filter keeps the kept names in the order they had, measured by first occurrence |
| Management.AvailableSources | frontend/js/management.js:163-165 | a name is offered exactly when it is among today's sources and has no metadata |
| Management.SelectDisabled | frontend/js/management.js:146-181 | the select is disabled while editing, and in add mode exactly when nothing is available |
| Management.AvailableSourcesExactly | frontend/js/management.js:162-165 | a name is offered exactly when it is among today's sources and has no metadata, no name is offered twice, and the names come in the order of their first occurrence among today's rows |
| Management.DisabledIffAllHaveMetadata | frontend/js/management.js:178-181 | in add mode the select is disabled exactly when every source of today already has metadata |
| Management.Orphans | frontend/js/management.js:466 | cleanup never deletes more entries than there are |
| Management.OrphansPartition | frontend/js/management.js:455-484 | orphans and kept entries split the metadata, and an entry is orphaned exactly when its name is not a current source |
| Management.Validate | frontend/js/management.js:222-234 | the form is checked for a source name, then a title, then a category, and the first missing one is reported |
| Management.BrandIsOptional | frontend/js/management.js:213-217 | the brand never affects validation |
| Management.SaveRequest | frontend/js/management.js:236-251 | only an accepted form is sent, with the form as body; edit mode sends PUT to the entry's encoded URL, add mode POST to the collection |
| Management.SuccessCount | frontend/js/management.js:385 | the success count is at most the number of deletes |
| Management.BulkDelete | frontend/js/management.js:366-393 | nothing selected and a declined confirmation stop before any delete; the reported count is at most the number selected |
| Management.AllDeletedIffAllSucceed | frontend/js/management.js:384-387 | the count equals the number selected exactly when every delete was fulfilled with an ok response |
| Realtime.Find | frontend/js/realtime.js:189 | nothing is found exactly when no row has the name; otherwise the result is the first row with that name |
| Realtime.TotalShows | frontend/js/realtime.js:126 | with no negative count the total shows are not negative |
| Realtime.TotalDuration | frontend/js/realtime.js:127 | with no negative duration the total duration is not negative |
| Realtime.SessionOf | frontend/js/realtime.js:183-199 | "Active Now" exactly when the name is active; "Recently Active" only for a name that has a row |
| Realtime.RowViewOf | frontend/js/realtime.js:149-167 | a row is highlighted exactly when its name is active, its count is the row's count or 0, and a subtitle is the raw name shown under a different display name |
| Realtime.TotalsAppend | frontend/js/realtime.js:126-127 | both totals add up over a concatenation of rows |
| Realtime.MissingCountsAsZero | frontend/js/realtime.js:126-127 | a row missing its counters adds the same as one whose counters are 0 |
| Realtime.TotalsBoundRows | frontend/js/realtime.js:126 | with no negative counts, the total shows are at least each row's count, and not negative |
| Realtime.SessionClassification | frontend/js/realtime.js:183-199 | "Active Now" exactly for active names; "Recently Active" exactly for an inactive name whose first row was seen less than two minutes ago |
| Realtime.WindowIsExclusive | frontend/js/realtime.js:193 | a row seen exactly 120000 ms ago is no longer recent; one ms later it is |
| Realtime.RowViewConsistent | frontend/js/realtime.js:149-167 | a row is highlighted exactly when its name is active, which is exactly when its label is "Active Now"; the subtitle shows exactly when a non-empty title differs from the name |
| Realtime.RealTimeView.constructor | frontend/js/realtime.js:3-4 | both fields start empty |
| Realtime.RealTimeView.OnMessage | frontend/js/realtime.js:25-37 | a snapshot message replaces both fields (missing ones become empty lists); any other message, or text that does not parse, changes nothing |
| Realtime.RealTimeView.ApplyFetch | frontend/js/realtime.js:79-107 | a failed sources fetch changes nothing; otherwise the data is replaced, and the active list is replaced, emptied or kept by the three outcomes of the active fetch |
| Realtime.RealTimeView.StatCards | frontend/js/realtime.js:115-132 | the cards show the number of rows, the number of active names, and the two sums over the rows, so the lemmas about `TotalShows` and `TotalDuration` apply to them |
| Realtime.RealTimeView.Table | frontend/js/realtime.js:134-181 | the table has one row per data row, and row i is the view of data row i, so `RowViewConsistent` applies to every row |
| Realtime.ReplayedSnapshot | frontend/js/realtime.js:29-33 | delivering the same snapshot twice leaves the state of one delivery |

## Left out

- The WebSocket transports, reconnect timers and the backend's broadcast to the frontend are not modelled: they are I/O. Socket events are method calls (`OnOpen`, `OnClose`, `HandleMessage`).
- The 2-second polling interval is one `Poll` call per tick. The poll one second after Identified is the same kind of call.
- The 3-second request timer is `OnTimeout` on the server's client. The stand-alone client's timer is left out, because a rejected promise there changes nothing but a log line.
- `JSON.parse` is not modelled: frames arrive parsed. In the backend, a frame that does not parse is caught with nothing changed, the same as a dropped frame.
- A request listener whose frame lacks `requestStatus` throws. The model gives every response a boolean `requestResult` instead.
- SQLite is a `map` that every statement reads and writes at once. Failed statements, the asynchronous gap between a show's SELECT and its write, and concurrent writes to the same new row are not modelled.
- SourceLog.SourceLogTable.UpdateSourceInDatabase: the `updated_at` column that the UPDATEs of `backend/obs-websocket.js` set is absent from the table's schema (`backend/server.js:15-23`), so those UPDATEs would fail. The model gives both copies the counter arithmetic of `backend/server.js`.
- Tracker.VisibilityTracker.HandleSourceVisibilityChange: the source reads the clock separately for the date, the timestamp, `Date.now()`, and again inside `updateSourceInDatabase`. The model uses one `Instant` per transition, so a call straddling midnight between two readings is not modelled.
- Tracker.VisibilityTracker.HandleAll, Tracker.ApplyAll, ServerClient.AfterApplyItems, ServerClient.ServerConnection.ApplyItems, ObsClient.AfterApplyItems: the source calls `handleSourceVisibilityChange` once per item, and each call reads the clock again. The model gives the whole item list one `Instant`, so a list whose items straddle a second or midnight boundary is not modelled.
- Realtime.RealTimeView.ApplyFetch: the source assigns `data` and then awaits `/api/active` before assigning `activeSources`. The model makes the two assignments one step, so an `onmessage` snapshot that arrives between them and is then half overwritten is not modelled.
- The WebSocket broadcasts and `triggerFrontendUpdate` after each write are left out: they only notify.
- Non-string source names (`undefined` or `null` items in a list) are not modelled. Names are strings, and a missing name reads as "". `sceneItemEnabled` is a boolean rather than any truthy value.
- Floating point is not modelled: `formatDuration` and `Math.round` are modelled on integers only.
- The DOM, toasts, `confirm` (a boolean parameter), `fetch` (its outcomes are parameters) and the locale formatting of `formatNumber`, `formatTime` and `formatDate` are not modelled.
- `encodeURIComponent` is a parameter of `Management.SaveRequest`.
- Reports.RowSplitsIntoFields: CSV fields are quoted but a `"` inside them is not escaped. The read-back lemmas therefore require that no text field holds a comma or a newline.
- Reports.CsvLines: requires no newline in any text field, for the same reason.
- Realtime: `last_visible_at` is taken as the milliseconds it parses to, or none when missing or unparsable. Counters are integers or missing.
- The HTTP routes and REST handlers of `backend/server.js` are not modelled: they are plain SQL pass-through. The rest of the frontend (`app.js`, `settings.js`) and `backend/test-connection.js` are also not part of this model.
