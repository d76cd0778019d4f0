/** Frames of the OBS WebSocket 5 protocol as the two clients read and write them, after
    `JSON.parse`. Fields a frame may lack are `Option`s; a string field that is missing or
    `null` reads as the empty string, which JavaScript treats as falsy just the same. */
module Protocol {
  import opened Wrappers
  import Decimal

  /** The value of a frame's `op` field. */
  datatype OpValue = Absent | Null | Bool(b: bool) | Number(n: int) | Text(s: string)

  /** JavaScript truthiness of an `op` value. */
  predicate Truthy(op: OpValue) {
    match op
    case Absent => false
    case Null => false
    case Bool(b) => b
    case Number(n) => n != 0
    case Text(s) => s != ""
  }

  /** Opcodes. */
  const OpHello := 0
  const OpIdentify := 1
  const OpIdentified := 2
  const OpEvent := 5
  const OpRequest := 6
  const OpRequestResponse := 7

  /** One entry of `sceneItems`. */
  datatype SceneItem = SceneItem(sourceName: string, sceneItemEnabled: bool)

  /** The `eventData` of an event frame. */
  datatype EventData = EventData(sceneItemName: string, sceneItemEnabled: bool, sceneName: string)

  /** The `responseData` of a request response. */
  datatype ResponseData = ResponseData(scenes: Option<seq<string>>, sceneItems: Option<seq<SceneItem>>,
                                       sceneName: string)

  /** The `d` object of a frame: the fields of an event and of a request response. */
  datatype Body = Body(eventType: string, eventData: Option<EventData>,
                       requestType: string, requestId: string, requestResult: bool,
                       responseData: Option<ResponseData>)

  /** A parsed frame: a falsy JSON value, or an object with an `op` and perhaps a `d`. */
  datatype Frame = Falsy | Obj(op: OpValue, d: Option<Body>)

  /** Frames the clients write: Identify (op 1) and Request (op 6). */
  datatype Outgoing =
    | IdentifyFrame(rpcVersion: int, eventSubscriptions: bv32)
    | RequestFrame(requestType: string, requestId: string, sceneName: Option<string>)

  /** Where `handleOBSMessage` sends a frame. */
  datatype Route = Dropped | ToHello | ToIdentified | ToEvent | ToRequestResponse | Unrouted

  /** The `switch (data.op)` both clients share: strict equality against four numbers. */
  function Dispatch(op: OpValue): (r: Route)
    ensures r != Dropped
    ensures r == ToHello <==> op == Number(OpHello)
    ensures r == ToIdentified <==> op == Number(OpIdentified)
    ensures r == ToEvent <==> op == Number(OpEvent)
    ensures r == ToRequestResponse <==> op == Number(OpRequestResponse)
  {
    match op
    case Number(n) =>
      if n == OpHello then ToHello
      else if n == OpIdentified then ToIdentified
      else if n == OpEvent then ToEvent
      else if n == OpRequestResponse then ToRequestResponse
      else Unrouted
    case _ => Unrouted
  }

  /** `req_${Date.now()}`. */
  function RequestId(nowMs: int): (r: string)
    ensures |r| > 4 && r[..4] == "req_"
    ensures nowMs >= 0 ==> Decimal.AllDigits(r[4..]) && Decimal.Value(r[4..]) == nowMs
  {
    "req_" + Decimal.IntToString(nowMs)
  }
}
