/** The OBS client inside backend/server.js: the handshake gate, the message dispatcher, the
    per-request listeners of `sendRequest`, scene polling, and the close handler. Visibility is
    fed only by polling, and every `GetSceneItemList` response is processed both by
    `handleRequestResponse` and by the listener of the request that asked for it. */
module ServerClient {
  import opened Wrappers
  import opened Protocol
  import opened Dates
  import Tracker
  import SourceLog

  const RpcVersion := 1

  /** `(1 << 0) | (1 << 1) | (1 << 4) | (1 << 5)`. */
  const Subscriptions: bv32 := (1 << 0) | (1 << 1) | (1 << 4) | (1 << 5)

  /** A listener `sendRequest` registered: the id it waits for, what it asked, and whether its
      promise was already rejected by the 3-second timer (the timer does not remove it). */
  datatype Pending = Pending(requestId: string, requestType: string, settled: bool)

  /** Everything the client holds, plus the table it writes. */
  datatype Conn = Conn(socketOpen: bool, isIdentified: bool, pollIntervals: nat,
                       pending: seq<Pending>, sent: seq<Outgoing>, world: Tracker.World)

  predicate Valid(c: Conn) {
    Tracker.Consistent(c.world.tracker)
  }

  /** The gate of `sendRequest`: an open socket and a completed handshake. */
  predicate Ready(c: Conn) {
    c.socketOpen && c.isIdentified
  }

  /** `handleOBSMessage`: a falsy frame or one without `op` is dropped, ops 0, 2, 5 and 7 are
      routed, and any other value is ignored. */
  function RouteFrame(f: Frame): (r: Route)
    ensures r == Dropped <==> f == Falsy || f.op == Absent
    ensures r == ToHello <==> f.Obj? && f.op == Number(OpHello)
    ensures r == ToIdentified <==> f.Obj? && f.op == Number(OpIdentified)
    ensures r == ToEvent <==> f.Obj? && f.op == Number(OpEvent)
    ensures r == ToRequestResponse <==> f.Obj? && f.op == Number(OpRequestResponse)
  {
    if f == Falsy || f.op == Absent then Dropped else Dispatch(f.op)
  }

  /** `sendRequest`: rejected unless ready; otherwise the frame goes out under the id
      `req_<now>` and a listener for that id is registered. */
  function AfterSendRequest(c: Conn, requestType: string, sceneName: Option<string>, now: Tracker.Instant): (r: Conn)
    ensures r.world == c.world && r.isIdentified == c.isIdentified && r.socketOpen == c.socketOpen
    ensures r.pollIntervals == c.pollIntervals
    ensures Ready(c) ==> r.sent == c.sent + [RequestFrame(requestType, RequestId(now.ms), sceneName)]
    ensures Ready(c) ==> r.pending == c.pending + [Pending(RequestId(now.ms), requestType, false)]
    ensures !Ready(c) ==> r == c
  {
    if !Ready(c) then c
    else
      var id := RequestId(now.ms);
      c.(sent := c.sent + [RequestFrame(requestType, id, sceneName)],
         pending := c.pending + [Pending(id, requestType, false)])
  }

  /** The `GetSceneItemList` requests for the named scenes, in order, under one id. */
  function SceneItemRequests(scenes: seq<string>, id: string): (r: seq<Outgoing>)
    ensures |r| == |NamedScenes(scenes)|
    ensures forall i :: 0 <= i < |r| ==> r[i] == RequestFrame("GetSceneItemList", id, Some(NamedScenes(scenes)[i]))
    decreases |scenes|
  {
    if scenes == [] then []
    else (if scenes[0] != "" then [RequestFrame("GetSceneItemList", id, Some(scenes[0]))] else [])
         + SceneItemRequests(scenes[1..], id)
  }

  /** The listeners those requests register. */
  function SceneItemListeners(scenes: seq<string>, id: string): (r: seq<Pending>)
    ensures |r| == |NamedScenes(scenes)|
    ensures forall i :: 0 <= i < |r| ==> r[i] == Pending(id, "GetSceneItemList", false)
    decreases |scenes|
  {
    if scenes == [] then []
    else (if scenes[0] != "" then [Pending(id, "GetSceneItemList", false)] else [])
         + SceneItemListeners(scenes[1..], id)
  }

  /** `getSceneSources` for every scene with a name, in order: one request per named scene
      when the client is ready, and nothing at all otherwise. */
  function AfterRequestSceneItems(c: Conn, scenes: seq<string>, now: Tracker.Instant): (r: Conn)
    ensures r.world == c.world && r.isIdentified == c.isIdentified && r.socketOpen == c.socketOpen
    ensures r.pollIntervals == c.pollIntervals
    ensures Ready(c) ==> r.sent == c.sent + SceneItemRequests(scenes, RequestId(now.ms))
    ensures Ready(c) ==> r.pending == c.pending + SceneItemListeners(scenes, RequestId(now.ms))
    ensures !Ready(c) ==> r == c
    decreases |scenes|
  {
    if scenes == [] then c
    else
      var c1 := if scenes[0] != "" then AfterSendRequest(c, "GetSceneItemList", Some(scenes[0]), now) else c;
      var r := AfterRequestSceneItems(c1, scenes[1..], now);
      SceneItemsStep(c, c1, r, scenes, now);
      r
  }

  /** One scene of `AfterRequestSceneItems`: its request, if it has a name, then the rest. */
  lemma SceneItemsStep(c: Conn, c1: Conn, r: Conn, scenes: seq<string>, now: Tracker.Instant)
    requires scenes != []
    requires c1 == if scenes[0] != "" then AfterSendRequest(c, "GetSceneItemList", Some(scenes[0]), now) else c
    requires r.world == c1.world && r.isIdentified == c1.isIdentified && r.socketOpen == c1.socketOpen
    requires r.pollIntervals == c1.pollIntervals
    requires Ready(c1) ==> r.sent == c1.sent + SceneItemRequests(scenes[1..], RequestId(now.ms))
    requires Ready(c1) ==> r.pending == c1.pending + SceneItemListeners(scenes[1..], RequestId(now.ms))
    requires !Ready(c1) ==> r == c1
    ensures r.world == c.world && r.isIdentified == c.isIdentified && r.socketOpen == c.socketOpen
    ensures r.pollIntervals == c.pollIntervals
    ensures Ready(c) ==> r.sent == c.sent + SceneItemRequests(scenes, RequestId(now.ms))
    ensures Ready(c) ==> r.pending == c.pending + SceneItemListeners(scenes, RequestId(now.ms))
    ensures !Ready(c) ==> r == c
  {
    if Ready(c) && scenes[0] != "" {
      NamedSceneStep(c, scenes, RequestId(now.ms));
    } else if Ready(c) {
      UnnamedSceneStep(scenes, RequestId(now.ms));
    }
  }

  lemma NamedSceneStep(c: Conn, scenes: seq<string>, id: string)
    requires scenes != [] && scenes[0] != ""
    ensures c.sent + [RequestFrame("GetSceneItemList", id, Some(scenes[0]))] + SceneItemRequests(scenes[1..], id)
         == c.sent + SceneItemRequests(scenes, id)
    ensures c.pending + [Pending(id, "GetSceneItemList", false)] + SceneItemListeners(scenes[1..], id)
         == c.pending + SceneItemListeners(scenes, id)
  {
    var f := RequestFrame("GetSceneItemList", id, Some(scenes[0]));
    var l := Pending(id, "GetSceneItemList", false);
    assert SceneItemRequests(scenes, id) == [f] + SceneItemRequests(scenes[1..], id);
    assert SceneItemListeners(scenes, id) == [l] + SceneItemListeners(scenes[1..], id);
  }

  lemma UnnamedSceneStep(scenes: seq<string>, id: string)
    requires scenes != [] && scenes[0] == ""
    ensures SceneItemRequests(scenes, id) == SceneItemRequests(scenes[1..], id)
    ensures SceneItemListeners(scenes, id) == SceneItemListeners(scenes[1..], id)
  {
    assert [] + SceneItemRequests(scenes[1..], id) == SceneItemRequests(scenes[1..], id);
    assert [] + SceneItemListeners(scenes[1..], id) == SceneItemListeners(scenes[1..], id);
  }

  /** The scenes with a name, in order and with their repeats. */
  function NamedScenes(scenes: seq<string>): (r: seq<string>)
    ensures forall s :: s in r <==> s in scenes && s != ""
    ensures |r| <= |scenes|
    decreases |scenes|
  {
    if scenes == [] then [] else (if scenes[0] != "" then [scenes[0]] else []) + NamedScenes(scenes[1..])
  }

  /** The items with a `sourceName`, as visibility signals, in order and with their repeats. */
  function Signals(items: seq<SceneItem>): (r: seq<Tracker.Signal>)
    ensures |r| <= |items|
    ensures forall i :: 0 <= i < |r| ==> r[i].name != ""
    ensures forall i :: 0 <= i < |items| && items[i].sourceName != "" ==>
      Tracker.Signal(items[i].sourceName, items[i].sceneItemEnabled) in r
  {
    if items == [] then []
    else (if items[0].sourceName != "" then [Tracker.Signal(items[0].sourceName, items[0].sceneItemEnabled)] else [])
         + Signals(items[1..])
  }

  /** Every named item through `handleSourceVisibilityChange`. */
  function AfterApplyItems(c: Conn, items: seq<SceneItem>, now: Tracker.Instant): (r: Conn)
    requires Valid(c)
    ensures Valid(r)
  {
    var run := Tracker.ApplyAll(c.world.tracker, Signals(items), now);
    c.(world := Tracker.World(run.state, Tracker.ApplyUpdates(c.world.rows, DatePart(now.iso), run.updates)))
  }

  /** `handleRequestResponse`. */
  function AfterRequestResponse(c: Conn, body: Body, now: Tracker.Instant): (r: Conn)
    requires Valid(c)
    ensures Valid(r)
  {
    if body.requestType == "" || body.responseData.None? then c
    else
      var rd := body.responseData.value;
      if body.requestType == "GetSceneList" && rd.scenes.Some? then AfterRequestSceneItems(c, rd.scenes.value, now)
      else if body.requestType == "GetSceneItemList" && rd.sceneItems.Some? then AfterApplyItems(c, rd.sceneItems.value, now)
      else c
  }

  /** The listener registered at connect time: `handleOBSMessage` and its handlers. Events
      are only logged. */
  function MainHandler(c: Conn, f: Frame, now: Tracker.Instant): (r: Conn)
    requires Valid(c)
    ensures Valid(r)
  {
    match RouteFrame(f)
    case ToHello => c.(sent := c.sent + [IdentifyFrame(RpcVersion, Subscriptions)])
    case ToIdentified => c.(isIdentified := true, pollIntervals := c.pollIntervals + 1)
    case ToRequestResponse => if f.d.Some? then AfterRequestResponse(c, f.d.value, now) else c
    case _ => c
  }

  /** A frame a request listener accepts: op 7 with a body carrying its id. */
  predicate Answers(f: Frame, p: Pending) {
    f.Obj? && f.op == Number(OpRequestResponse) && f.d.Some? && f.d.value.requestId == p.requestId
  }

  function Matching(ps: seq<Pending>, f: Frame): (r: seq<Pending>)
    ensures forall p :: p in r <==> p in ps && Answers(f, p)
  {
    if ps == [] then [] else (if Answers(f, ps[0]) then [ps[0]] else []) + Matching(ps[1..], f)
  }

  function NotMatching(ps: seq<Pending>, f: Frame): (r: seq<Pending>)
    ensures forall p :: p in r <==> p in ps && !Answers(f, p)
  {
    if ps == [] then [] else (if Answers(f, ps[0]) then [] else [ps[0]]) + NotMatching(ps[1..], f)
  }

  /** The `.then` of the promise a matching listener resolves: `pollAllSources` asks for every
      scene's items, `getSceneSources` feeds the items to the tracker. A rejected or already
      timed-out promise runs nothing. */
  function AfterContinue(c: Conn, p: Pending, body: Body, now: Tracker.Instant): (r: Conn)
    requires Valid(c)
    ensures Valid(r)
  {
    if p.settled || !body.requestResult || body.responseData.None? then c
    else
      var rd := body.responseData.value;
      if p.requestType == "GetSceneList" && rd.scenes.Some? then AfterRequestSceneItems(c, rd.scenes.value, now)
      else if p.requestType == "GetSceneItemList" && rd.sceneItems.Some? then AfterApplyItems(c, rd.sceneItems.value, now)
      else c
  }

  function ContinueAll(c: Conn, ps: seq<Pending>, body: Body, now: Tracker.Instant): (r: Conn)
    requires Valid(c)
    ensures Valid(r)
    decreases |ps|
  {
    if ps == [] then c else ContinueAll(AfterContinue(c, ps[0], body, now), ps[1..], body, now)
  }

  /** One incoming frame: the listeners registered before it arrived run in registration order
      (the connect-time listener first); the matching request listeners remove themselves and
      their continuations run afterwards. */
  function Receive(c: Conn, f: Frame, now: Tracker.Instant): (r: Conn)
    requires Valid(c)
    ensures Valid(r)
  {
    var c1 := MainHandler(c.(pending := NotMatching(c.pending, f)), f, now);
    if f.Obj? && f.d.Some? then ContinueAll(c1, Matching(c.pending, f), f.d.value, now) else c1
  }

  /** The interval tick of `startManualPolling`: a `GetSceneList` request while identified,
      which the gate still drops on a closed socket. */
  function AfterPoll(c: Conn, now: Tracker.Instant): (r: Conn)
    ensures r.world == c.world && r.isIdentified == c.isIdentified
    ensures Ready(c) ==> r.sent == c.sent + [RequestFrame("GetSceneList", RequestId(now.ms), None)]
    ensures !Ready(c) ==> r == c
  {
    if c.isIdentified then AfterSendRequest(c, "GetSceneList", None, now) else c
  }

  /** The close handler: not identified, both maps cleared and no duration written; the
      listeners of the closed socket are gone with it. The table and the frames already sent
      stay as they were. */
  function Close(c: Conn): (r: Conn)
    ensures Valid(r)
    ensures !r.socketOpen && !r.isIdentified && r.pending == []
    ensures r.world.tracker == Tracker.Empty && r.world.rows == c.world.rows
    ensures r.sent == c.sent && r.pollIntervals == c.pollIntervals
  {
    c.(socketOpen := false, isIdentified := false, pending := [],
       world := Tracker.World(Tracker.Empty, c.world.rows))
  }

  // ---------------------------------------------------------------------------------------
  // Properties

  /** The mask declares bits 0, 1, 4 and 5. */
  lemma SubscriptionsValue()
    ensures Subscriptions == 51
  {
  }

  /** `sendRequest` sends something exactly when the socket is open and the handshake is done;
      otherwise nothing at all changes. It never touches the tracker or the table. */
  lemma RequestGate(c: Conn, requestType: string, sceneName: Option<string>, now: Tracker.Instant)
    ensures var r := AfterSendRequest(c, requestType, sceneName, now);
      && (|r.sent| == |c.sent| + 1 <==> Ready(c))
      && (!Ready(c) ==> r == c)
      && r.world == c.world && r.isIdentified == c.isIdentified
  {
  }

  /** A closed client sends nothing: requests and polls are dropped by the gate until a new
      handshake. */
  lemma ClosedClientSendsNothing(c: Conn, requestType: string, sceneName: Option<string>, now: Tracker.Instant)
    ensures AfterSendRequest(Close(c), requestType, sceneName, now) == Close(c)
    ensures AfterPoll(Close(c), now) == Close(c)
  {
  }

  /** Closing drops the open sessions without writing their durations, so a source still on
      screen after the reconnect is counted as a new show, starting at the new instant. */
  lemma ReconnectRecountsShow(c: Conn, name: string, now: Tracker.Instant)
    requires Valid(c) && name in c.world.tracker.activeSources
    ensures var o := Tracker.Step(Close(c).world.tracker, name, true, now);
      && Close(c).world.rows == c.world.rows
      && o.update == Some(SourceLog.Update(name, true, now.iso, 0))
      && o.state.sourceSessions[name] == now.ms
  {
    Tracker.ShowOpensSession(Tracker.Empty, name, now);
  }

  /** Every Identified frame starts one more polling interval, and nothing ever clears one:
      closing keeps the count. */
  lemma IdentifiedAddsInterval(c: Conn, d: Option<Body>, now: Tracker.Instant)
    requires Valid(c)
    ensures var r := Receive(c, Obj(Number(OpIdentified), d), now);
      && r.pollIntervals == c.pollIntervals + 1
      && r.isIdentified
      && r.sent == c.sent && r.world == c.world
      && Close(r).pollIntervals == c.pollIntervals + 1
  {
    NoMatchKeepsPending(c.pending, Obj(Number(OpIdentified), d));
    NoMatchIsEmpty(c.pending, Obj(Number(OpIdentified), d));
  }

  /** The named scenes of a concatenation are those of each part, in order. */
  lemma {:induction false} NamedScenesAppend(a: seq<string>, b: seq<string>)
    ensures NamedScenes(a + b) == NamedScenes(a) + NamedScenes(b)
    decreases |a|
  {
    if a == [] {
      assert a + b == b;
    } else {
      assert (a + b)[1..] == a[1..] + b;
      NamedScenesAppend(a[1..], b);
    }
  }

  /** The signals of a concatenation are those of each part, in order: the filter keeps the
      order the tracker's run depends on. */
  lemma {:induction false} SignalsAppend(a: seq<SceneItem>, b: seq<SceneItem>)
    ensures Signals(a + b) == Signals(a) + Signals(b)
    decreases |a|
  {
    if a == [] {
      assert a + b == b;
    } else {
      assert (a + b)[1..] == a[1..] + b;
      SignalsAppend(a[1..], b);
    }
  }

  /** A `GetSceneList` answer to the poll's request is taken both by the connect-time handler
      and by the poll's own listener, so every named scene's items are asked for twice, all
      under the id of the current millisecond. */
  lemma PolledSceneListFansOutTwice(c: Conn, body: Body, scenes: seq<string>, now: Tracker.Instant)
    requires Valid(c) && Ready(c)
    requires body.requestType == "GetSceneList" && body.requestResult
    requires body.responseData.Some? && body.responseData.value.scenes == Some(scenes)
    requires c.pending == [Pending(body.requestId, "GetSceneList", false)]
    ensures var r := Receive(c, Obj(Number(OpRequestResponse), Some(body)), now);
      var reqs := SceneItemRequests(scenes, RequestId(now.ms));
      && r.sent == c.sent + reqs + reqs
      && r.world == c.world
      && |r.pending| == 2 * |NamedScenes(scenes)|
  {
    var f := Obj(Number(OpRequestResponse), Some(body));
    var p := c.pending[0];
    assert Matching(c.pending, f) == [p];
    assert NotMatching(c.pending, f) == [];
    var c1 := AfterRequestSceneItems(c.(pending := []), scenes, now);
    assert MainHandler(c.(pending := []), f, now) == c1;
    assert ContinueAll(c1, [p], body, now) == AfterRequestSceneItems(c1, scenes, now);
  }

  /** Two requests sent in the same millisecond get the same id, so a response to either one
      is taken by both listeners. */
  lemma SameMillisecondIdsCollide(c: Conn, t1: string, t2: string, s1: Option<string>, s2: Option<string>,
                                  now: Tracker.Instant, body: Body)
    requires Ready(c)
    ensures var r := AfterSendRequest(AfterSendRequest(c, t1, s1, now), t2, s2, now);
      var f := Obj(Number(OpRequestResponse), Some(body.(requestId := RequestId(now.ms))));
      && |r.pending| == |c.pending| + 2
      && Answers(f, r.pending[|c.pending|]) && Answers(f, r.pending[|c.pending| + 1])
  {
  }

  /** A frame with no `op` changes nothing. */
  lemma DroppedFrameChangesNothing(c: Conn, f: Frame, now: Tracker.Instant)
    requires Valid(c) && RouteFrame(f) == Dropped
    ensures Receive(c, f, now) == c
  {
    NoMatchKeepsPending(c.pending, f);
    NoMatchIsEmpty(c.pending, f);
  }

  /** A frame whose op is not 0, 2, 5 or 7 changes nothing, and neither does an event: this
      copy only logs events. */
  lemma IgnoredFrameChangesNothing(c: Conn, f: Frame, now: Tracker.Instant)
    requires Valid(c) && (RouteFrame(f) == Unrouted || RouteFrame(f) == ToEvent)
    ensures Receive(c, f, now) == c
  {
    NoMatchKeepsPending(c.pending, f);
    NoMatchIsEmpty(c.pending, f);
  }

  lemma {:induction false} NoMatchKeepsPending(ps: seq<Pending>, f: Frame)
    requires !(f.Obj? && f.op == Number(OpRequestResponse))
    ensures NotMatching(ps, f) == ps
    decreases |ps|
  {
    if ps != [] {
      NoMatchKeepsPending(ps[1..], f);
      assert [ps[0]] + ps[1..] == ps;
    }
  }

  lemma {:induction false} NoMatchIsEmpty(ps: seq<Pending>, f: Frame)
    requires !(f.Obj? && f.op == Number(OpRequestResponse))
    ensures Matching(ps, f) == []
    decreases |ps|
  {
    if ps != [] {
      NoMatchIsEmpty(ps[1..], f);
    }
  }

  /** Hello then Identified on a fresh open socket: one Identify frame with version 1 and mask
      51 goes out, and requests become legal. */
  lemma HandshakeCompletes(c: Conn, hello: Frame, identified: Frame, now: Tracker.Instant)
    requires Valid(c) && c.socketOpen && !c.isIdentified && c.sent == [] && c.pending == []
    requires hello == Obj(Number(OpHello), None) && identified == Obj(Number(OpIdentified), None)
    ensures var r := Receive(Receive(c, hello, now), identified, now);
      && r.sent == [IdentifyFrame(1, 51)]
      && Ready(r)
      && r.world == c.world
  {
    var c1 := Receive(c, hello, now);
    assert c1.pending == [];
  }

  /** The listener continuations of a `GetSceneItemList` response, run on a tracker that
      already agrees with the list, change nothing. */
  lemma {:induction false} ReplayedContinuationsAreNoops(c: Conn, ps: seq<Pending>, body: Body, items: seq<SceneItem>,
                                                         now: Tracker.Instant)
    requires Valid(c)
    requires body.responseData.Some? && body.responseData.value.scenes.None?
    requires body.responseData.value.sceneItems == Some(items)
    requires forall i :: 0 <= i < |ps| ==> ps[i].requestType == "GetSceneItemList"
    requires Tracker.AgreesWith(c.world.tracker, Signals(items))
    ensures ContinueAll(c, ps, body, now) == c
    decreases |ps|
  {
    if ps != [] {
      var c1 := AfterContinue(c, ps[0], body, now);
      Tracker.AgreeingRunIsNoop(c.world.tracker, Signals(items), now);
      assert c1 == c;
      ReplayedContinuationsAreNoops(c, ps[1..], body, items, now);
    }
  }

  /** The double processing of polled item lists is harmless: a `GetSceneItemList` response
      taken by any number of request listeners leaves the tracker and the table exactly as one
      pass over its items would, provided the list does not report one name both ways. The
      listeners that took it are gone afterwards. */
  lemma ItemListProcessedAsOnce(c: Conn, body: Body, items: seq<SceneItem>, now: Tracker.Instant)
    requires Valid(c)
    requires body.requestType == "GetSceneItemList"
    requires body.responseData.Some? && body.responseData.value.scenes.None?
    requires body.responseData.value.sceneItems == Some(items)
    requires forall p :: p in c.pending && p.requestId == body.requestId ==> p.requestType == "GetSceneItemList"
    requires Tracker.SameVisibilityPerName(Signals(items))
    ensures var f := Obj(Number(OpRequestResponse), Some(body));
      var once := AfterApplyItems(c, items, now);
      var r := Receive(c, f, now);
      && r.world == once.world
      && r.pending == NotMatching(c.pending, f)
  {
    var f := Obj(Number(OpRequestResponse), Some(body));
    var c1 := MainHandler(c.(pending := NotMatching(c.pending, f)), f, now);
    assert c1 == AfterApplyItems(c.(pending := NotMatching(c.pending, f)), items, now);
    Tracker.RunEstablishesAgreement(c.world.tracker, Signals(items), now);
    var ms := Matching(c.pending, f);
    forall i | 0 <= i < |ms| ensures ms[i].requestType == "GetSceneItemList" {
      assert ms[i] in ms;
    }
    ReplayedContinuationsAreNoops(c1, ms, body, items, now);
  }

  // ---------------------------------------------------------------------------------------
  // The client as the process holds it

  class ServerConnection {
    var socketOpen: bool
    var isIdentified: bool
    var pollIntervals: nat
    var pending: seq<Pending>
    var sent: seq<Outgoing>
    const tracker: Tracker.VisibilityTracker

    function Snapshot(): Conn
      reads this, tracker, tracker.log
    {
      Conn(socketOpen, isIdentified, pollIntervals, pending, sent,
           Tracker.World(tracker.Snapshot(), tracker.log.rows))
    }

    predicate Valid()
      reads this, tracker
    {
      tracker.Valid()
    }

    constructor (tracker: Tracker.VisibilityTracker)
      requires tracker.Valid()
      ensures Valid() && this.tracker == tracker
      ensures !socketOpen && !isIdentified && pollIntervals == 0 && pending == [] && sent == []
    {
      socketOpen := false;
      isIdentified := false;
      pollIntervals := 0;
      pending := [];
      sent := [];
      this.tracker := tracker;
    }

    /** The socket's 'open' event. */
    method OnOpen()
      modifies this
      ensures socketOpen && isIdentified == old(isIdentified) && pending == old(pending)
      ensures sent == old(sent) && pollIntervals == old(pollIntervals)
    {
      socketOpen := true;
    }

    /** The close handler: not identified, both maps cleared, no duration written; the
        listeners of the closed socket are gone. */
    method OnClose()
      requires Valid()
      modifies this, tracker
      ensures Valid() && Snapshot() == Close(old(Snapshot()))
    {
      isIdentified := false;
      tracker.Clear();
      socketOpen := false;
      pending := [];
    }

    /** The 3-second timer of request `i` rejects its promise; its listener stays registered. */
    method OnTimeout(i: nat)
      modifies this
      ensures i < |old(pending)| ==> pending == old(pending)[i := old(pending)[i].(settled := true)]
      ensures i >= |old(pending)| ==> pending == old(pending)
      ensures socketOpen == old(socketOpen) && isIdentified == old(isIdentified)
      ensures sent == old(sent) && pollIntervals == old(pollIntervals)
    {
      if i < |pending| {
        pending := pending[i := pending[i].(settled := true)];
      }
    }

    method SendRequest(requestType: string, sceneName: Option<string>, now: Tracker.Instant) returns (accepted: bool)
      requires Valid()
      modifies this
      ensures Valid() && accepted == Ready(old(Snapshot()))
      ensures Snapshot() == AfterSendRequest(old(Snapshot()), requestType, sceneName, now)
    {
      if !socketOpen || !isIdentified {
        return false;
      }
      var messageId := RequestId(now.ms);
      sent := sent + [RequestFrame(requestType, messageId, sceneName)];
      pending := pending + [Pending(messageId, requestType, false)];
      return true;
    }

    method Poll(now: Tracker.Instant)
      requires Valid()
      modifies this
      ensures Valid() && Snapshot() == AfterPoll(old(Snapshot()), now)
    {
      if isIdentified {
        var _ := SendRequest("GetSceneList", None, now);
      }
    }

    /** `getSceneSources` for each named scene (the `forEach` over `scenes`). */
    method RequestSceneItems(scenes: seq<string>, now: Tracker.Instant)
      requires Valid()
      modifies this
      ensures Valid() && Snapshot() == AfterRequestSceneItems(old(Snapshot()), scenes, now)
    {
      var i := 0;
      while i < |scenes|
        invariant 0 <= i <= |scenes| && Valid()
        invariant AfterRequestSceneItems(Snapshot(), scenes[i..], now) == AfterRequestSceneItems(old(Snapshot()), scenes, now)
      {
        if scenes[i] != "" {
          var _ := SendRequest("GetSceneItemList", Some(scenes[i]), now);
        }
        assert scenes[i..][1..] == scenes[i + 1..];
        i := i + 1;
      }
    }

    method ApplyItems(items: seq<SceneItem>, now: Tracker.Instant)
      requires Valid()
      modifies tracker, tracker.log
      ensures Valid() && Snapshot() == AfterApplyItems(old(Snapshot()), items, now)
    {
      tracker.HandleAll(Signals(items), now);
    }

    method HandleRequestResponse(body: Body, now: Tracker.Instant)
      requires Valid()
      modifies this, tracker, tracker.log
      ensures Valid() && Snapshot() == AfterRequestResponse(old(Snapshot()), body, now)
    {
      if body.requestType == "" || body.responseData.None? {
        return;
      }
      var rd := body.responseData.value;
      if body.requestType == "GetSceneList" && rd.scenes.Some? {
        RequestSceneItems(rd.scenes.value, now);
      } else if body.requestType == "GetSceneItemList" && rd.sceneItems.Some? {
        ApplyItems(rd.sceneItems.value, now);
      }
    }

    method Continue(p: Pending, body: Body, now: Tracker.Instant)
      requires Valid()
      modifies this, tracker, tracker.log
      ensures Valid() && Snapshot() == AfterContinue(old(Snapshot()), p, body, now)
    {
      if p.settled || !body.requestResult || body.responseData.None? {
        return;
      }
      var rd := body.responseData.value;
      if p.requestType == "GetSceneList" && rd.scenes.Some? {
        RequestSceneItems(rd.scenes.value, now);
      } else if p.requestType == "GetSceneItemList" && rd.sceneItems.Some? {
        ApplyItems(rd.sceneItems.value, now);
      }
    }

    /** `handleOBSMessage` and the handler it routes to. */
    method HandleOBSMessage(f: Frame, now: Tracker.Instant)
      requires Valid()
      modifies this, tracker, tracker.log
      ensures Valid() && Snapshot() == MainHandler(old(Snapshot()), f, now)
    {
      match RouteFrame(f) {
        case ToHello =>
          sent := sent + [IdentifyFrame(RpcVersion, Subscriptions)];
        case ToIdentified =>
          isIdentified := true;
          pollIntervals := pollIntervals + 1;
        case ToRequestResponse =>
          if f.d.Some? {
            HandleRequestResponse(f.d.value, now);
          }
        case _ =>
      }
    }

    /** The `.then` callbacks of the requests a response settled, in order. */
    method RunContinuations(ps: seq<Pending>, body: Body, now: Tracker.Instant)
      requires Valid()
      modifies this, tracker, tracker.log
      ensures Valid() && Snapshot() == ContinueAll(old(Snapshot()), ps, body, now)
    {
      var i := 0;
      while i < |ps|
        invariant 0 <= i <= |ps| && Valid()
        invariant ContinueAll(Snapshot(), ps[i..], body, now) == ContinueAll(old(Snapshot()), ps, body, now)
      {
        Continue(ps[i], body, now);
        assert ps[i..][1..] == ps[i + 1..];
        i := i + 1;
      }
    }

    /** A frame arrives on the socket. */
    method HandleMessage(f: Frame, now: Tracker.Instant)
      requires Valid()
      modifies this, tracker, tracker.log
      ensures Valid() && Snapshot() == Receive(old(Snapshot()), f, now)
    {
      var matched := Matching(pending, f);
      pending := NotMatching(pending, f);
      HandleOBSMessage(f, now);
      if f.Obj? && f.d.Some? {
        RunContinuations(matched, f.d.value, now);
      }
    }
  }
}
