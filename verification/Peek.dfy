/** Looking into DAP frames without re-encoding them (dap/peek.rs). */
module Peek {
  import opened Text

  /** Proxy-built requests are numbered from here; the client's stay below. */
  const SEQ_BASE: int := 1_000_000

  /** The launch configuration, as far as the proxy acts on it. */
  datatype Config = Config(terminateOnStop: bool, oslog: bool)

  /** A request's `arguments` read as a launch configuration, or why that failed. */
  datatype Arguments = Parsed(config: Config) | Unparsed(error: string)

  /** The members of a JSON frame that the proxy inspects; `config` is what its `arguments` deserialise to. */
  datatype Body = Body(
    kind: Option<string>,
    command: Option<string>,
    event: Option<string>,
    seqNo: Option<int>,
    requestSeq: Option<int>,
    success: Option<bool>,
    config: Arguments)

  /** A frame: its bytes, and what they parse to if they are JSON. */
  datatype Frame = Frame(raw: seq<byte>, json: Option<Body>)

  datatype ClientMsg =
    | Initialize
    | Launch(seqNo: int, config: Arguments)
    | Disconnect(seqNo: int)
    | Other
    | Malformed

  datatype ChildMsg = InternalResponse(requestSeq: int) | ChildOther | ChildMalformed

  function GetOr<T>(o: Option<T>, default: T): T {
    match o case None => default case Some(v) => v
  }

  function ClassifyClient(f: Frame): ClientMsg {
    match f.json
    case None => Malformed
    case Some(v) =>
      if v.kind != Some("request") then Other
      else if v.command == Some("initialize") then Initialize
      else if v.command == Some("launch") then Launch(GetOr(v.seqNo, 0), v.config)
      else if v.command == Some("disconnect") then Disconnect(GetOr(v.seqNo, 0))
      else Other
  }

  function ClassifyChild(f: Frame): ChildMsg {
    match f.json
    case None => ChildMalformed
    case Some(v) =>
      if v.kind == Some("response") && v.requestSeq.Some? && v.requestSeq.value >= SEQ_BASE
      then InternalResponse(v.requestSeq.value)
      else ChildOther
  }

  /** `Some(true)` for `exited`, `Some(false)` for `terminated`. */
  function TerminalEvent(f: Frame): Option<bool> {
    match f.json
    case None => None
    case Some(v) =>
      if v.kind != Some("event") then None
      else if v.event == Some("exited") then Some(true)
      else if v.event == Some("terminated") then Some(false)
      else None
  }

  // -- proxy-built messages ---------------------------------------------------

  datatype Msg =
    | OutputEvent(category: string, text: string)
    | EvaluateRequest(expr: string, seqNo: int)
    | AttachRequest(pid: int, seqNo: int)
    | ErrorResponse(requestSeq: int, command: string, message: string)
    | SuccessResponse(requestSeq: int, command: string)
    | TerminatedEvent
    | Rewritten(body: Body)

  /** One entry of a writer's queue: a frame passed through, or a message the proxy built. */
  datatype Out = Raw(frame: Frame) | Built(msg: Msg)

  /** The attach response turned into the launch response, and whether it reports success. */
  function RewriteAttachResponse(v: Body, launchSeq: int): (Msg, bool) {
    (Rewritten(v.(requestSeq := Some(launchSeq), command := Some("launch"))), GetOr(v.success, false))
  }

  /** The request that a frame or message answers, if it is a response. */
  function Answers(out: Out): Option<int> {
    match out
    case Raw(f) => FrameAnswers(f)
    case Built(ErrorResponse(q, _, _)) => Some(q)
    case Built(SuccessResponse(q, _)) => Some(q)
    case Built(Rewritten(v)) => if v.kind == Some("response") then v.requestSeq else None
    case Built(_) => None
  }

  function FrameAnswers(f: Frame): Option<int> {
    if f.json.Some? && f.json.value.kind == Some("response") then f.json.value.requestSeq else None
  }

  /** The number of a client request; a missing number reads as zero. */
  function RequestSeq(f: Frame): Option<int> {
    if f.json.Some? && f.json.value.kind == Some("request") then Some(GetOr(f.json.value.seqNo, 0)) else None
  }

  /** The number under which the child receives a request. */
  function Asks(out: Out): Option<int> {
    match out
    case Raw(f) => RequestSeq(f)
    case Built(EvaluateRequest(_, q)) => Some(q)
    case Built(AttachRequest(_, q)) => Some(q)
    case Built(_) => None
  }
}
