/** The DAP proxy state machine and its routing loop (dap/proxy.rs). */
module Proxy {
  import opened Text
  import opened Peek

  /** A launched app; `name` is the stem of its path; `mock` marks the local dummy process of the mock pipeline. */
  datatype App = App(pid: int, udid: string, bundle: string, name: string, terminateOnStop: bool, oslog: bool, mock: bool)

  /** How the pipeline task ended. */
  datatype PipelineResult = Launched(app: App) | Error(message: string)

  /** What the proxy does outside the two channels. */
  datatype Effect =
    | Terminate(app: App)
    | KillMock(app: App)
    | CancelPipeline
    | Claim(udid: string)
    | Release(udid: string)

  /** `LoopAction`, with an error that ends the loop as `Exit(1)` would. */
  datatype Action = Continue | Exit(code: int)

  /** What the routing loop's `select!` can deliver. The booleans say whether the child's writer took the
      frames sent while handling it; `claimed`, whether writing the pidfile succeeded. */
  datatype Event =
    | ClientFrame(frame: Frame, up: bool)
    | ClientClosed
    | ChildFrame(frame: Frame)
    | ChildClosed
    | PipelineDone(result: PipelineResult, claimed: bool, up: bool, up2: bool)
    | Deadline
    | Signal
    | SinkLine(category: string, text: string)

  /** The fields of the proxy, with everything sent so far on either channel. */
  datatype State = State(
    mock: bool,
    launchSeq: Option<int>,
    attachSeq: Option<int>,
    nextSeq: int,
    pipelineRunning: bool,
    pendingDisconnect: Option<int>,
    disconnectWait: Option<int>,
    session: Option<App>,
    tailers: bool,
    oslog: bool,
    pidfileUdid: Option<string>,
    attached: bool,
    sessionEnded: bool,
    debuggeeExited: bool,
    toClient: seq<Out>,
    toChild: seq<Out>,
    effects: seq<Effect>)

  const LAUNCH := "launch"
  const DISCONNECT := "disconnect"
  const CONSOLE := "console"
  const STDERR := "stderr"
  const ATTACHED := "Debugger attached\n"
  const ATTACH_FAILED := "Debugger attach failed\n"
  const IN_PROGRESS := "a launch is already in progress in this session"
  const BAD_CONFIG := "invalid launch configuration: "
  const SUPERSEDED := "Superseded by a new run \U{2014} stopping this session.\n"
  const PLATFORM_SELECT := "platform select ios-simulator"

  // -- one handler, one function ----------------------------------------------

  function Start(mock: bool, initialize: Frame): State {
    State(mock, None, None, SEQ_BASE, false, None, None, None, false, false, None, false, false, false,
          [], [Raw(initialize)], [])
  }

  function Tell(s: State, m: Msg): State {
    s.(toClient := s.toClient + [Built(m)])
  }

  function Ask(s: State, out: Out): State {
    s.(toChild := s.toChild + [out])
  }

  function Do(s: State, e: Effect): State {
    s.(effects := s.effects + [e])
  }

  function FailLaunch(s: State, message: string): State {
    Tell(Tell(Tell(s, ErrorResponse(GetOr(s.launchSeq, 0), LAUNCH, message)),
              OutputEvent(STDERR, message + "\n")),
         TerminatedEvent)
  }

  function HandleLaunch(s: State, q: int, config: Arguments): (State, Action) {
    if s.pipelineRunning || s.session.Some? then (Tell(s, ErrorResponse(q, LAUNCH, IN_PROGRESS)), Continue)
    else
      var t := s.(launchSeq := Some(q));
      if !s.mock && config.Unparsed? then (FailLaunch(t, BAD_CONFIG + config.error), Exit(1))
      else (t.(pipelineRunning := true), Continue)
  }

  /** A disconnect cancels a running pipeline, is answered here once the session has ended, and otherwise goes
      to the child with a bounded wait. */
  function OnDisconnect(s: State, q: int, f: Frame, up: bool): (State, Action) {
    if s.pipelineRunning then (Do(s.(pendingDisconnect := Some(q)), CancelPipeline), Continue)
    else if s.sessionEnded then
      (Tell(if up then Ask(s, Raw(f)) else s, SuccessResponse(q, DISCONNECT)), Exit(0))
    else if up then (Ask(s, Raw(f)).(disconnectWait := Some(q)), Continue)
    else (s, Exit(1))
  }

  function Forward(s: State, f: Frame, up: bool): (State, Action) {
    if up then (Ask(s, Raw(f)), Continue) else (s, Exit(1))
  }

  function OnClient(s: State, f: Frame, up: bool): (State, Action) {
    match ClassifyClient(f)
    case Malformed => (s, Exit(1))
    case Launch(q, config) => HandleLaunch(s, q, config)
    case Disconnect(q) => OnDisconnect(s, q, f, up)
    case Initialize => Forward(s, f, up)
    case Other => Forward(s, f, up)
  }

  /** Undo a launch the pipeline finished although it had been cancelled. */
  function Undo(s: State, app: App): State {
    Do(s, if app.mock then KillMock(app) else Terminate(app))
  }

  /** The attach request, then the session; a failed send drops the app. */
  function SendAttach(s: State, app: App, up: bool): (State, Action) {
    var t := s.(attachSeq := Some(s.nextSeq), nextSeq := s.nextSeq + 1);
    if up then (Ask(t, Built(AttachRequest(app.pid, s.nextSeq))).(session := Some(app)), Continue)
    else (t, Exit(1))
  }

  /** The pipeline had been cancelled by the disconnect `q`: answer that, undo the launch, exit. */
  function WindDown(s: State, q: int, r: PipelineResult): State {
    var u := s.(pendingDisconnect := None);
    Tell(Tell(if r.Launched? then Undo(u, r.app) else u, SuccessResponse(q, DISCONNECT)), TerminatedEvent)
  }

  function ClaimSimulator(s: State, app: App, claimed: bool): State {
    if claimed then Do(s, Claim(app.udid)).(pidfileUdid := Some(app.udid)) else s
  }

  /** `platform select` (not for the mock app), then the attach. */
  function BeginAttach(s: State, app: App, up: bool, up2: bool): (State, Action) {
    if s.mock then SendAttach(s, app, up)
    else
      var t := s.(nextSeq := s.nextSeq + 1);
      if up then SendAttach(Ask(t, Built(EvaluateRequest(PLATFORM_SELECT, s.nextSeq))), app, up2)
      else (t, Exit(1))
  }

  function OnPipelineDone(s: State, r: PipelineResult, claimed: bool, up: bool, up2: bool): (State, Action) {
    var t := s.(pipelineRunning := false);
    match s.pendingDisconnect
    case Some(q) => (WindDown(t, q, r), Exit(0))
    case None =>
      match r
      case Error(message) => (FailLaunch(t, message), Exit(1))
      case Launched(app) => BeginAttach(ClaimSimulator(t, app, claimed), app, up, up2)
  }

  /** The OSLog pump runs when configured, for an app that has a name. */
  predicate PumpsLog(app: App) {
    app.oslog && app.name != ""
  }

  function StartTailers(s: State): State {
    if s.tailers || s.session.None? then s
    else s.(tailers := true, oslog := PumpsLog(s.session.value))
  }

  /** The attach response, rewritten onto the launch. */
  function AnswerLaunch(s: State, v: Body): State {
    var (msg, success) := RewriteAttachResponse(v, GetOr(s.launchSeq, 0));
    var t := Tell(s, msg);
    if success then StartTailers(Tell(t.(attached := true), OutputEvent(CONSOLE, ATTACHED)))
    else Tell(t, OutputEvent(STDERR, ATTACH_FAILED))
  }

  /** The first `exited` or `terminated` event decides both flags. */
  function NoteTerminal(s: State, f: Frame): State {
    var ended := TerminalEvent(f);
    if !s.sessionEnded && ended.Some? then s.(sessionEnded := true, debuggeeExited := ended.value) else s
  }

  function PassToClient(s: State, f: Frame): State {
    s.(toClient := s.toClient + [Raw(f)])
  }

  function OnChild(s: State, f: Frame): (State, Action) {
    match ClassifyChild(f)
    case ChildMalformed => (s, Exit(1))
    case InternalResponse(q) => (if s.attachSeq == Some(q) then AnswerLaunch(s, f.json.value) else s, Continue)
    case ChildOther => (PassToClient(NoteTerminal(s, f), f), Continue)
  }

  function AnnounceSuperseded(s: State): State {
    if s.sessionEnded || (!s.attached && s.session.None?) then s
    else Tell(Tell(s, OutputEvent(CONSOLE, SUPERSEDED)), TerminatedEvent).(sessionEnded := true)
  }

  /** Which arms of the `select!` can fire. */
  predicate Enabled(s: State, e: Event) {
    match e
    case PipelineDone(r, _, _, _) => s.pipelineRunning && (r.Launched? ==> r.app.mock == s.mock)
    case Deadline => s.disconnectWait.Some?
    case SinkLine(_, _) => s.pipelineRunning || s.tailers
    case _ => true
  }

  /** One turn of the routing loop. */
  function Step(s: State, e: Event): (State, Action)
    requires Enabled(s, e)
  {
    match e
    case ClientFrame(f, up) => OnClient(s, f, up)
    case ChildFrame(f) => OnChild(s, f)
    case PipelineDone(r, claimed, up, up2) => OnPipelineDone(s, r, claimed, up, up2)
    case Deadline =>
      (Tell(s.(disconnectWait := None), SuccessResponse(s.disconnectWait.value, DISCONNECT)), Exit(0))
    case Signal => (AnnounceSuperseded(s), Exit(0))
    case SinkLine(category, text) => (Tell(s, OutputEvent(category, text + "\n")), Continue)
    case ClientClosed => (s, Exit(0))
    case ChildClosed => (s, Exit(0))
  }

  /** A run of the loop: the events it took in order. */
  function Exec(s: State, es: seq<Event>): (State, Action)
    requires Legal(s, es)
    decreases |es|, 1
  {
    if es == [] then (s, Continue) else Step(Exec(s, es[..|es| - 1]).0, es[|es| - 1])
  }

  /** Every event could fire when it did, and none came after the loop ended. */
  predicate Legal(s: State, es: seq<Event>)
    decreases |es|, 0
  {
    es == [] ||
    (Legal(s, es[..|es| - 1]) && Exec(s, es[..|es| - 1]).1 == Continue
     && Enabled(Exec(s, es[..|es| - 1]).0, es[|es| - 1]))
  }

  lemma {:induction false} LegalPrefix(s: State, es: seq<Event>, n: nat)
    requires Legal(s, es) && n <= |es|
    ensures Legal(s, es[..n])
    ensures n < |es| ==> Exec(s, es[..n]).1 == Continue && Enabled(Exec(s, es[..n]).0, es[n])
  {
    if n == |es| {
      assert es[..n] == es;
    } else if n < |es| - 1 {
      LegalPrefix(s, es[..|es| - 1], n);
      assert es[..|es| - 1][..n] == es[..n];
    }
  }

  // -- teardown ---------------------------------------------------------------

  function ShouldTerminate(attached: bool, terminateOnStop: bool, superseded: bool, debuggeeExited: bool): bool {
    !superseded && !debuggeeExited && (!attached || terminateOnStop)
  }

  /** Only a proxy that recorded a claim can read itself superseded. */
  predicate Superseded(s: State, stillOurs: bool) {
    s.pidfileUdid.Some? && !stillOurs
  }

  /** `drained` is the result of a pipeline still running when the loop ended, if it arrived in time. */
  function Teardown(s: State, drained: Option<PipelineResult>, stillOurs: bool): State {
    ReleasePidfile(StopApp(DrainPipeline(s, drained).(tailers := false, oslog := false), stillOurs))
  }

  function DrainPipeline(s: State, drained: Option<PipelineResult>): State {
    if !s.pipelineRunning then s
    else
      var t := Do(s, CancelPipeline);
      if drained.Some? && drained.value.Launched? then t.(session := Some(drained.value.app)) else t
  }

  function StopApp(s: State, stillOurs: bool): State {
    match s.session
    case None => s
    case Some(app) =>
      var t := s.(session := None);
      if app.mock then Do(t, KillMock(app))
      else if ShouldTerminate(s.attached, app.terminateOnStop, Superseded(s, stillOurs), s.debuggeeExited)
      then Do(t, Terminate(app))
      else t
  }

  function ReleasePidfile(s: State): State {
    if s.pidfileUdid.Some? then Do(s, Release(s.pidfileUdid.value)).(pidfileUdid := None) else s
  }

  // -- the class --------------------------------------------------------------

  class Proxy {
    const mock: bool
    var launchSeq: Option<int>
    var attachSeq: Option<int>
    var nextSeq: int
    var pipelineRunning: bool
    var pendingDisconnect: Option<int>
    var disconnectWait: Option<int>
    var session: Option<App>
    var tailers: bool
    var oslog: bool
    var pidfileUdid: Option<string>
    var attached: bool
    var sessionEnded: bool
    var debuggeeExited: bool
    /** Everything sent on the single-writer channel to the client, and to the child. */
    var toClient: seq<Out>
    var toChild: seq<Out>
    var effects: seq<Effect>

    ghost function Now(): State
      reads this
    {
      State(mock, launchSeq, attachSeq, nextSeq, pipelineRunning, pendingDisconnect, disconnectWait, session,
            tailers, oslog, pidfileUdid, attached, sessionEnded, debuggeeExited, toClient, toChild, effects)
    }

    constructor (mock: bool, initialize: Frame)
      ensures Now() == Start(mock, initialize)
    {
      this.mock := mock;
      launchSeq, attachSeq, nextSeq := None, None, SEQ_BASE;
      pipelineRunning, pendingDisconnect, disconnectWait := false, None, None;
      session, tailers, oslog, pidfileUdid := None, false, false, None;
      attached, sessionEnded, debuggeeExited := false, false, false;
      toClient, toChild, effects := [], [Raw(initialize)], [];
    }

    method SendToClient(out: Out)
      modifies this`toClient
      ensures toClient == old(toClient) + [out]
    {
      toClient := toClient + [out];
    }

    /** Fails when the child's writer task has gone. */
    method SendToChild(out: Out, up: bool) returns (ok: bool)
      modifies this`toChild
      ensures ok == up && toChild == if up then old(toChild) + [out] else old(toChild)
    {
      ok := up;
      if up {
        toChild := toChild + [out];
      }
    }

    method TakeSeq() returns (q: int)
      modifies this`nextSeq
      ensures q == old(nextSeq) && nextSeq == q + 1
    {
      q := nextSeq;
      nextSeq := nextSeq + 1;
    }

    method FailWith(message: string) returns (a: Action)
      modifies this`toClient
      ensures (Now(), a) == (FailLaunch(old(Now()), message), Exit(1))
    {
      var q := GetOr(launchSeq, 0);
      SendToClient(Built(ErrorResponse(q, LAUNCH, message)));
      SendToClient(Built(OutputEvent(STDERR, message + "\n")));
      SendToClient(Built(TerminatedEvent));
      a := Exit(1);
    }

    method OnLaunch(q: int, config: Arguments) returns (a: Action)
      modifies this
      ensures (Now(), a) == HandleLaunch(old(Now()), q, config)
    {
      if pipelineRunning || session.Some? {
        SendToClient(Built(ErrorResponse(q, LAUNCH, IN_PROGRESS)));
        return Continue;
      }
      launchSeq := Some(q);
      if !mock && config.Unparsed? {
        a := FailWith(BAD_CONFIG + config.error);
        return;
      }
      pipelineRunning := true;
      a := Continue;
    }

    method Disconnects(q: int, f: Frame, up: bool) returns (a: Action)
      modifies this
      ensures (Now(), a) == OnDisconnect(old(Now()), q, f, up)
    {
      if pipelineRunning {
        pendingDisconnect := Some(q);
        effects := effects + [CancelPipeline];
        return Continue;
      }
      if sessionEnded {
        var _ := SendToChild(Raw(f), up);
        SendToClient(Built(SuccessResponse(q, DISCONNECT)));
        return Exit(0);
      }
      var ok := SendToChild(Raw(f), up);
      if !ok {
        return Exit(1);
      }
      disconnectWait := Some(q);
      a := Continue;
    }

    method OnClientMessage(f: Frame, up: bool) returns (a: Action)
      modifies this
      ensures (Now(), a) == OnClient(old(Now()), f, up)
    {
      hide HandleLaunch, OnDisconnect, ClassifyClient;
      match ClassifyClient(f) {
        case Malformed =>
          a := Exit(1);
        case Launch(q, config) =>
          a := OnLaunch(q, config);
        case Disconnect(q) =>
          a := Disconnects(q, f, up);
        case Initialize =>
          var ok := SendToChild(Raw(f), up);
          a := if ok then Continue else Exit(1);
        case Other =>
          var ok := SendToChild(Raw(f), up);
          a := if ok then Continue else Exit(1);
      }
    }

    method Cleanup(q: int, r: PipelineResult)
      modifies this
      ensures Now() == WindDown(old(Now()), q, r)
    {
      pendingDisconnect := None;
      if r.Launched? {
        effects := effects + [if r.app.mock then KillMock(r.app) else Terminate(r.app)];
      }
      SendToClient(Built(SuccessResponse(q, DISCONNECT)));
      SendToClient(Built(TerminatedEvent));
    }

    method AttachTo(app: App, up: bool) returns (a: Action)
      modifies this
      ensures (Now(), a) == SendAttach(old(Now()), app, up)
    {
      var q := TakeSeq();
      attachSeq := Some(q);
      var ok := SendToChild(Built(AttachRequest(app.pid, q)), up);
      if !ok {
        return Exit(1);
      }
      session := Some(app);
      a := Continue;
    }

    method SelectAndAttach(app: App, up: bool, up2: bool) returns (a: Action)
      modifies this
      ensures (Now(), a) == BeginAttach(old(Now()), app, up, up2)
    {
      if mock {
        a := AttachTo(app, up);
        return;
      }
      var q := TakeSeq();
      var ok := SendToChild(Built(EvaluateRequest(PLATFORM_SELECT, q)), up);
      if !ok {
        return Exit(1);
      }
      a := AttachTo(app, up2);
    }

    method OnPipelineResult(r: PipelineResult, claimed: bool, up: bool, up2: bool) returns (a: Action)
      modifies this
      ensures (Now(), a) == OnPipelineDone(old(Now()), r, claimed, up, up2)
    {
      hide WindDown, FailLaunch, BeginAttach;
      pipelineRunning := false;
      if pendingDisconnect.Some? {
        Cleanup(pendingDisconnect.value, r);
        return Exit(0);
      }
      if r.Error? {
        a := FailWith(r.message);
        return;
      }
      if claimed {
        effects := effects + [Claim(r.app.udid)];
        pidfileUdid := Some(r.app.udid);
      }
      a := SelectAndAttach(r.app, up, up2);
    }

    /** Idempotent. */
    method BeginTailing()
      modifies this
      ensures Now() == StartTailers(old(Now()))
    {
      if tailers || session.None? {
        return;
      }
      tailers := true;
      oslog := PumpsLog(session.value);
    }

    method LaunchAnswered(v: Body)
      modifies this
      ensures Now() == AnswerLaunch(old(Now()), v)
    {
      hide StartTailers;
      var (msg, success) := RewriteAttachResponse(v, GetOr(launchSeq, 0));
      SendToClient(Built(msg));
      if success {
        attached := true;
        SendToClient(Built(OutputEvent(CONSOLE, ATTACHED)));
        BeginTailing();
      } else {
        SendToClient(Built(OutputEvent(STDERR, ATTACH_FAILED)));
      }
    }

    method OnChildMessage(f: Frame) returns (a: Action)
      modifies this
      ensures (Now(), a) == OnChild(old(Now()), f)
    {
      hide AnswerLaunch, TerminalEvent;
      match ClassifyChild(f) {
        case ChildMalformed =>
          a := Exit(1);
        case InternalResponse(q) =>
          if attachSeq == Some(q) {
            LaunchAnswered(f.json.value);
          }
          a := Continue;
        case ChildOther =>
          if !sessionEnded {
            var ended := TerminalEvent(f);
            if ended.Some? {
              sessionEnded := true;
              debuggeeExited := ended.value;
            }
          }
          SendToClient(Raw(f));
          a := Continue;
      }
    }

    method Announce()
      modifies this
      ensures Now() == AnnounceSuperseded(old(Now()))
    {
      if sessionEnded || (!attached && session.None?) {
        return;
      }
      SendToClient(Built(OutputEvent(CONSOLE, SUPERSEDED)));
      SendToClient(Built(TerminatedEvent));
      sessionEnded := true;
    }

    method Handle(e: Event) returns (a: Action)
      requires Enabled(Now(), e)
      modifies this
      ensures (Now(), a) == Step(old(Now()), e)
    {
      match e {
        case ClientFrame(f, up) => a := OnClientMessage(f, up);
        case ChildFrame(f) => a := OnChildMessage(f);
        case PipelineDone(r, claimed, up, up2) => a := OnPipelineResult(r, claimed, up, up2);
        case Deadline =>
          SendToClient(Built(SuccessResponse(disconnectWait.value, DISCONNECT)));
          disconnectWait := None;
          a := Exit(0);
        case Signal =>
          Announce();
          a := Exit(0);
        case SinkLine(category, text) =>
          SendToClient(Built(OutputEvent(category, text + "\n")));
          a := Continue;
        case _ =>
          a := Exit(0);
      }
    }

    /** The routing loop, taking events until one ends it. */
    method Route(es: seq<Event>) returns (a: Action)
      requires Legal(Now(), es)
      modifies this
      ensures (Now(), a) == Exec(old(Now()), es)
    {
      hide Step;
      ghost var start := Now();
      a := Continue;
      var i := 0;
      while i < |es| && a == Continue
        invariant i <= |es| && Legal(start, es[..i]) && (Now(), a) == Exec(start, es[..i])
        invariant a != Continue ==> i == |es|
      {
        LegalPrefix(start, es, i);
        LegalPrefix(start, es, i + 1);
        assert es[..i + 1][..i] == es[..i];
        a := Handle(es[i]);
        i := i + 1;
        if i < |es| {
          LegalPrefix(start, es, i);
        }
      }
      assert es[..|es|] == es;
    }

    method StopSession(stillOurs: bool)
      modifies this
      ensures Now() == StopApp(old(Now()), stillOurs)
    {
      if session.Some? {
        var app := session.value;
        session := None;
        if app.mock {
          effects := effects + [KillMock(app)];
        } else {
          var superseded := pidfileUdid.Some? && !stillOurs;
          if ShouldTerminate(attached, app.terminateOnStop, superseded, debuggeeExited) {
            effects := effects + [Terminate(app)];
          }
        }
      }
    }

    method Drain(drained: Option<PipelineResult>)
      modifies this
      ensures Now() == DrainPipeline(old(Now()), drained)
    {
      if pipelineRunning {
        effects := effects + [CancelPipeline];
        if drained.Some? && drained.value.Launched? {
          session := Some(drained.value.app);
        }
      }
    }

    method Relinquish()
      modifies this
      ensures Now() == ReleasePidfile(old(Now()))
    {
      if pidfileUdid.Some? {
        effects := effects + [Release(pidfileUdid.value)];
        pidfileUdid := None;
      }
    }

    /** The sinks' last lines, while something still feeds them. */
    method EmitLines(lines: seq<(string, string)>)
      modifies this`toClient
      ensures toClient == old(toClient) + Outputs(lines)
    {
      for i := 0 to |lines|
        invariant toClient == old(toClient) + Outputs(lines[..i])
      {
        assert lines[..i + 1] == lines[..i] + [lines[i]];
        assert Outputs(lines[..i + 1]) == Outputs(lines[..i]) + [Built(OutputEvent(lines[i].0, lines[i].1 + "\n"))];
        SendToClient(Built(OutputEvent(lines[i].0, lines[i].1 + "\n")));
      }
      assert lines[..|lines|] == lines;
    }

    /** Wind the pipeline down, stop the tailers with their last `lines`, stop the app, give the pidfile up. */
    method TearDown(drained: Option<PipelineResult>, lines: seq<(string, string)>, stillOurs: bool)
      modifies this
      ensures Now() == TeardownSaying(old(Now()), drained, lines, stillOurs)
    {
      hide StopApp, DrainPipeline, ReleasePidfile, Outputs;
      var feeding := pipelineRunning || tailers;
      Drain(drained);
      if feeding {
        EmitLines(lines);
      }
      oslog := false;
      tailers := false;
      StopSession(stillOurs);
      Relinquish();
    }
  }

  function Outputs(lines: seq<(string, string)>): seq<Out> {
    seq(|lines|, i requires 0 <= i < |lines| => Built(OutputEvent(lines[i].0, lines[i].1 + "\n")))
  }

  /** The teardown with the lines that the pipeline and the tailers still emit while they stop. */
  function TeardownSaying(s: State, drained: Option<PipelineResult>, lines: seq<(string, string)>, stillOurs: bool): State {
    var t := DrainPipeline(s, drained);
    var u := if s.pipelineRunning || s.tailers then t.(toClient := t.toClient + Outputs(lines)) else t;
    ReleasePidfile(StopApp(u.(tailers := false, oslog := false), stillOurs))
  }
}
