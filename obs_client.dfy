/** The stand-alone OBS client of backend/obs-websocket.js. It shares the tracker and the table
    with the server's copy but differs in three places: its guard drops every frame whose `op`
    is falsy (Hello's op is 0), it tracks visibility from `SceneItemEnableStateChanged` events,
    and it feeds every scene item to the tracker without filtering, from the main handler only
    (its request listeners just remove themselves). */
module ObsClient {
  import opened Wrappers
  import opened Protocol
  import opened Dates
  import Tracker
  import SourceLog
  import ServerClient

  const RpcVersion := 1

  /** `1 | 16 | 32`. */
  const Subscriptions: bv32 := 1 | 16 | 32

  /** The client's state, plus the table it writes. */
  datatype Conn = Conn(socketOpen: bool, isIdentified: bool, pending: seq<ServerClient.Pending>,
                       sent: seq<Outgoing>, world: Tracker.World)

  predicate Valid(c: Conn) {
    Tracker.Consistent(c.world.tracker)
  }

  predicate Ready(c: Conn) {
    c.socketOpen && c.isIdentified
  }

  /** Nothing sent so far is an Identify frame. */
  predicate NoIdentifySent(c: Conn) {
    forall i :: 0 <= i < |c.sent| ==> c.sent[i].RequestFrame?
  }

  /** `handleOBSMessage`: `!data || !data.op` drops the frame, then the shared switch. */
  function RouteFrame(f: Frame): (r: Route)
    ensures r == Dropped <==> f == Falsy || !Truthy(f.op)
    ensures r == ToHello ==> false
    ensures r == ToIdentified <==> f.Obj? && f.op == Number(OpIdentified)
    ensures r == ToEvent <==> f.Obj? && f.op == Number(OpEvent)
    ensures r == ToRequestResponse <==> f.Obj? && f.op == Number(OpRequestResponse)
  {
    if f == Falsy || !Truthy(f.op) then Dropped else Dispatch(f.op)
  }

  /** `sendRequest`: gated like the server's copy; the frame goes out under `req_<now>` and a
      listener for that id is registered. */
  function AfterSendRequest(c: Conn, requestType: string, sceneName: Option<string>, now: Tracker.Instant): (r: Conn)
    ensures r.world == c.world && r.isIdentified == c.isIdentified && r.socketOpen == c.socketOpen
    ensures Ready(c) ==> r.sent == c.sent + [RequestFrame(requestType, RequestId(now.ms), sceneName)]
    ensures Ready(c) ==> r.pending == c.pending + [ServerClient.Pending(RequestId(now.ms), requestType, false)]
    ensures !Ready(c) ==> r == c
  {
    if !Ready(c) then c
    else
      var id := RequestId(now.ms);
      c.(sent := c.sent + [RequestFrame(requestType, id, sceneName)],
         pending := c.pending + [ServerClient.Pending(id, requestType, false)])
  }

  /** Every item as a signal, named or not. */
  function ItemSignals(items: seq<SceneItem>): (r: seq<Tracker.Signal>)
    ensures |r| == |items|
    ensures forall i :: 0 <= i < |items| ==>
      r[i] == Tracker.Signal(items[i].sourceName, items[i].sceneItemEnabled)
  {
    if items == [] then []
    else [Tracker.Signal(items[0].sourceName, items[0].sceneItemEnabled)] + ItemSignals(items[1..])
  }

  function AfterApplyItems(c: Conn, items: seq<SceneItem>, now: Tracker.Instant): (r: Conn)
    requires Valid(c)
    ensures Valid(r)
  {
    var run := Tracker.ApplyAll(c.world.tracker, ItemSignals(items), now);
    c.(world := Tracker.World(run.state, Tracker.ApplyUpdates(c.world.rows, DatePart(now.iso), run.updates)))
  }

  /** `handleIdentified`: identified, then `getCurrentScene`, which the gate lets through only
      on an open socket. */
  function AfterIdentified(c: Conn, now: Tracker.Instant): (r: Conn)
    ensures r.isIdentified && r.socketOpen == c.socketOpen && r.world == c.world
    ensures c.socketOpen ==> r.sent == c.sent + [RequestFrame("GetCurrentProgramScene", RequestId(now.ms), None)]
    ensures c.socketOpen ==> r.pending == c.pending + [ServerClient.Pending(RequestId(now.ms), "GetCurrentProgramScene", false)]
    ensures !c.socketOpen ==> r.sent == c.sent && r.pending == c.pending
  {
    AfterSendRequest(c.(isIdentified := true), "GetCurrentProgramScene", None, now)
  }

  /** `handleEvent`: only `SceneItemEnableStateChanged` reaches the tracker. An event of that
      type without `eventData` throws, and the throw is caught with nothing changed. */
  function AfterEvent(c: Conn, body: Body, now: Tracker.Instant): (r: Conn)
    requires Valid(c)
    ensures Valid(r)
  {
    if body.eventType == "SceneItemEnableStateChanged" && body.eventData.Some? then
      var ed := body.eventData.value;
      c.(world := Tracker.Deliver(c.world, Tracker.Signal(ed.sceneItemName, ed.sceneItemEnabled), now))
    else c
  }

  /** `handleRequestResponse`: the current scene's name asks for its items; an item list goes
      to the tracker whole. A list response without `sceneItems` throws before any item. */
  function AfterRequestResponse(c: Conn, body: Body, now: Tracker.Instant): (r: Conn)
    requires Valid(c)
    ensures Valid(r)
  {
    if body.requestType == "" || body.responseData.None? then c
    else
      var rd := body.responseData.value;
      if body.requestType == "GetCurrentProgramScene" then AfterSendRequest(c, "GetSceneItemList", Some(rd.sceneName), now)
      else if body.requestType == "GetSceneItemList" && rd.sceneItems.Some? then AfterApplyItems(c, rd.sceneItems.value, now)
      else c
  }

  function MainHandler(c: Conn, f: Frame, now: Tracker.Instant): (r: Conn)
    requires Valid(c)
    ensures Valid(r)
  {
    match RouteFrame(f)
    case ToHello => c.(sent := c.sent + [IdentifyFrame(RpcVersion, Subscriptions)])
    case ToIdentified => AfterIdentified(c, now)
    case ToEvent => if f.d.Some? then AfterEvent(c, f.d.value, now) else c
    case ToRequestResponse => if f.d.Some? then AfterRequestResponse(c, f.d.value, now) else c
    case _ => c
  }

  /** One incoming frame: the connect-time listener, then the request listeners the frame
      answers, which only remove themselves. */
  function Receive(c: Conn, f: Frame, now: Tracker.Instant): (r: Conn)
    requires Valid(c)
    ensures Valid(r)
    ensures NoIdentifySent(c) ==> NoIdentifySent(r)
  {
    MainHandler(c.(pending := ServerClient.NotMatching(c.pending, f)), f, now)
  }

  function ReceiveAll(c: Conn, frames: seq<Frame>, now: Tracker.Instant): (r: Conn)
    requires Valid(c)
    ensures Valid(r)
    decreases |frames|
  {
    if frames == [] then c else ReceiveAll(Receive(c, frames[0], now), frames[1..], now)
  }

  /** The close handler: not identified, both maps cleared and no duration written; the
      listeners of the closed socket are gone with it. */
  function Close(c: Conn): (r: Conn)
    ensures Valid(r)
    ensures !r.socketOpen && !r.isIdentified && r.pending == []
    ensures r.world.tracker == Tracker.Empty && r.world.rows == c.world.rows
    ensures r.sent == c.sent
  {
    c.(socketOpen := false, isIdentified := false, pending := [],
       world := Tracker.World(Tracker.Empty, c.world.rows))
  }

  // ---------------------------------------------------------------------------------------
  // Properties

  /** The mask declares bits 0, 4 and 5; bit 1 (config) is not asked for. */
  lemma SubscriptionsValue()
    ensures Subscriptions == 49 && Subscriptions & 2 == 0
  {
  }

  /** The guard differs from the server's only on frames whose `op` is present but falsy
      (0, `null`, `false`, ""), and Hello is one of them. */
  lemma RouteVersusServer(f: Frame)
    ensures RouteFrame(f) == (if f.Obj? && !Truthy(f.op) then Dropped else ServerClient.RouteFrame(f))
    ensures f.Obj? && f.op == Number(OpHello) ==> RouteFrame(f) == Dropped && ServerClient.RouteFrame(f) == ToHello
  {
  }

  /** A Hello changes nothing at all. */
  lemma HelloIsIgnored(c: Conn, d: Option<Body>, now: Tracker.Instant)
    requires Valid(c)
    ensures Receive(c, Obj(Number(OpHello), d), now) == c
  {
    ServerClient.NoMatchKeepsPending(c.pending, Obj(Number(OpHello), d));
  }

  /** A frame the guard drops (a falsy `op`, Hello included) and one whose op the switch does
      not know change nothing at all. */
  lemma IgnoredFrameChangesNothing(c: Conn, f: Frame, now: Tracker.Instant)
    requires Valid(c) && (RouteFrame(f) == Dropped || RouteFrame(f) == Unrouted)
    ensures Receive(c, f, now) == c
  {
    ServerClient.NoMatchKeepsPending(c.pending, f);
  }

  /** After the close handler the client sends nothing until a new handshake, and a source
      still on screen after the reconnect is counted as a new show. */
  lemma ClosedClientSendsNothing(c: Conn, requestType: string, sceneName: Option<string>, name: string,
                                 now: Tracker.Instant)
    ensures AfterSendRequest(Close(c), requestType, sceneName, now) == Close(c)
    ensures Tracker.Step(Close(c).world.tracker, name, true, now).update
         == Some(SourceLog.Update(name, true, now.iso, 0))
  {
    Tracker.ShowOpensSession(Tracker.Empty, name, now);
  }

  /** Whatever OBS sends, this client never writes an Identify frame. */
  lemma {:induction false} NeverIdentifies(c: Conn, frames: seq<Frame>, now: Tracker.Instant)
    requires Valid(c) && NoIdentifySent(c)
    ensures NoIdentifySent(ReceiveAll(c, frames, now))
    decreases |frames|
  {
    if frames != [] {
      NeverIdentifies(Receive(c, frames[0], now), frames[1..], now);
    }
  }

  /** Without an Identified frame the client never becomes identified and never sends. */
  lemma {:induction false} StaysIdleWithoutIdentified(c: Conn, frames: seq<Frame>, now: Tracker.Instant)
    requires Valid(c) && !c.isIdentified
    requires forall i :: 0 <= i < |frames| ==> RouteFrame(frames[i]) != ToIdentified
    ensures var r := ReceiveAll(c, frames, now);
      !r.isIdentified && r.sent == c.sent
    decreases |frames|
  {
    if frames != [] {
      var c1 := Receive(c, frames[0], now);
      assert c1.sent == c.sent && !c1.isIdentified;
      StaysIdleWithoutIdentified(c1, frames[1..], now);
    }
  }

  /** Identified on an open socket asks for the current program scene. */
  lemma IdentifiedAsksForScene(c: Conn, d: Option<Body>, now: Tracker.Instant)
    requires Valid(c) && c.socketOpen
    ensures var r := Receive(c, Obj(Number(OpIdentified), d), now);
      && Ready(r)
      && r.sent == c.sent + [RequestFrame("GetCurrentProgramScene", RequestId(now.ms), None)]
      && r.world == c.world
  {
  }

  /** A `SceneItemEnableStateChanged` event is exactly one tracker step for its item. */
  lemma EnableStateEventIsOneStep(c: Conn, body: Body, ed: EventData, now: Tracker.Instant)
    requires Valid(c)
    requires body.eventType == "SceneItemEnableStateChanged" && body.eventData == Some(ed)
    ensures Receive(c, Obj(Number(OpEvent), Some(body)), now).world
         == Tracker.Deliver(c.world, Tracker.Signal(ed.sceneItemName, ed.sceneItemEnabled), now)
  {
  }

  /** Any other event changes nothing. */
  lemma OtherEventsChangeNothing(c: Conn, d: Option<Body>, now: Tracker.Instant)
    requires Valid(c)
    requires d.None? || d.value.eventType != "SceneItemEnableStateChanged"
    ensures Receive(c, Obj(Number(OpEvent), d), now) == c
  {
    ServerClient.NoMatchKeepsPending(c.pending, Obj(Number(OpEvent), d));
  }

  /** An item list is applied once, item by item, unnamed items included. */
  lemma ItemListAppliedOnce(c: Conn, body: Body, items: seq<SceneItem>, now: Tracker.Instant)
    requires Valid(c)
    requires body.requestType == "GetSceneItemList" && body.responseData.Some?
    requires body.responseData.value.sceneItems == Some(items)
    ensures var f := Obj(Number(OpRequestResponse), Some(body));
      var run := Tracker.ApplyAll(c.world.tracker, ItemSignals(items), now);
      Receive(c, f, now).world
        == Tracker.World(run.state, Tracker.ApplyUpdates(c.world.rows, DatePart(now.iso), run.updates))
  {
    var f := Obj(Number(OpRequestResponse), Some(body));
    var c1 := c.(pending := ServerClient.NotMatching(c.pending, f));
    assert RouteFrame(f) == ToRequestResponse;
    assert Receive(c, f, now) == AfterApplyItems(c1, items, now);
  }

  // ---------------------------------------------------------------------------------------
  // The client as the process holds it

  class ObsConnection {
    var socketOpen: bool
    var isIdentified: bool
    var pending: seq<ServerClient.Pending>
    var sent: seq<Outgoing>
    const tracker: Tracker.VisibilityTracker

    function Snapshot(): Conn
      reads this, tracker, tracker.log
    {
      Conn(socketOpen, isIdentified, pending, sent, Tracker.World(tracker.Snapshot(), tracker.log.rows))
    }

    predicate Valid()
      reads this, tracker
    {
      tracker.Valid()
    }

    constructor (tracker: Tracker.VisibilityTracker)
      requires tracker.Valid()
      ensures Valid() && this.tracker == tracker
      ensures !socketOpen && !isIdentified && pending == [] && sent == []
    {
      socketOpen := false;
      isIdentified := false;
      pending := [];
      sent := [];
      this.tracker := tracker;
    }

    method OnOpen()
      modifies this
      ensures socketOpen && isIdentified == old(isIdentified) && pending == old(pending) && sent == old(sent)
    {
      socketOpen := true;
    }

    method OnClose()
      requires Valid()
      modifies this, tracker
      ensures Valid() && Snapshot() == Close(old(Snapshot()))
    {
      isIdentified := false;
      tracker.Clear();
      socketOpen := false;
      pending := [];
    }

    method SendRequest(requestType: string, sceneName: Option<string>, now: Tracker.Instant) returns (accepted: bool)
      requires Valid()
      modifies this
      ensures Valid() && accepted == Ready(old(Snapshot()))
      ensures Snapshot() == AfterSendRequest(old(Snapshot()), requestType, sceneName, now)
    {
      if !socketOpen || !isIdentified {
        return false;
      }
      var messageId := RequestId(now.ms);
      sent := sent + [RequestFrame(requestType, messageId, sceneName)];
      pending := pending + [ServerClient.Pending(messageId, requestType, false)];
      return true;
    }

    method HandleEvent(body: Body, now: Tracker.Instant)
      requires Valid()
      modifies tracker, tracker.log
      ensures Valid() && Snapshot() == AfterEvent(old(Snapshot()), body, now)
    {
      if body.eventType == "SceneItemEnableStateChanged" && body.eventData.Some? {
        var ed := body.eventData.value;
        tracker.HandleSourceVisibilityChange(ed.sceneItemName, ed.sceneItemEnabled, now);
      }
    }

    method HandleRequestResponse(body: Body, now: Tracker.Instant)
      requires Valid()
      modifies this, tracker, tracker.log
      ensures Valid() && Snapshot() == AfterRequestResponse(old(Snapshot()), body, now)
    {
      if body.requestType == "" || body.responseData.None? {
        return;
      }
      var rd := body.responseData.value;
      if body.requestType == "GetCurrentProgramScene" {
        var _ := SendRequest("GetSceneItemList", Some(rd.sceneName), now);
      } else if body.requestType == "GetSceneItemList" && rd.sceneItems.Some? {
        tracker.HandleAll(ItemSignals(rd.sceneItems.value), now);
      }
    }

    /** A frame arrives on the socket. */
    method HandleMessage(f: Frame, now: Tracker.Instant)
      requires Valid()
      modifies this, tracker, tracker.log
      ensures Valid() && Snapshot() == Receive(old(Snapshot()), f, now)
    {
      pending := ServerClient.NotMatching(pending, f);
      match RouteFrame(f) {
        case ToIdentified =>
          isIdentified := true;
          var _ := SendRequest("GetCurrentProgramScene", None, now);
        case ToEvent =>
          if f.d.Some? {
            HandleEvent(f.d.value, now);
          }
        case ToRequestResponse =>
          if f.d.Some? {
            HandleRequestResponse(f.d.value, now);
          }
        case _ =>
      }
    }
  }
}
