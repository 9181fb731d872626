/** What the proxy says to the client and to the child over every run of its loop. */
module ProxyTraffic {
  import opened Text
  import opened Peek
  import opened Proxy
  import opened ProxyRuns

  // -- what one event makes the proxy send ------------------------------------

  function LaunchFailure(q: int, message: string): seq<Out> {
    [Built(ErrorResponse(q, LAUNCH, message)), Built(OutputEvent(STDERR, message + "\n")), Built(TerminatedEvent)]
  }

  function Attached(s: State, v: Body): seq<Out> {
    [Built(Rewritten(v.(requestSeq := Some(GetOr(s.launchSeq, 0)), command := Some(LAUNCH))))] +
    [Built(if GetOr(v.success, false) then OutputEvent(CONSOLE, ATTACHED)
           else OutputEvent(STDERR, ATTACH_FAILED))]
  }

  /** Sent to the client on `e`. */
  function Says(s: State, e: Event): seq<Out> {
    match e
    case ClientFrame(f, _) =>
      (match ClassifyClient(f)
       case Launch(q, config) =>
         if s.pipelineRunning || s.session.Some? then [Built(ErrorResponse(q, LAUNCH, IN_PROGRESS))]
         else if !s.mock && config.Unparsed? then LaunchFailure(q, BAD_CONFIG + config.error)
         else []
       case Disconnect(q) =>
         if !s.pipelineRunning && s.sessionEnded then [Built(SuccessResponse(q, DISCONNECT))] else []
       case _ => [])
    case ChildFrame(f) =>
      (match ClassifyChild(f)
       case ChildMalformed => []
       case InternalResponse(q) => if s.attachSeq == Some(q) then Attached(s, f.json.value) else []
       case ChildOther => [Raw(f)])
    case PipelineDone(r, _, _, _) =>
      if s.pendingDisconnect.Some?
      then [Built(SuccessResponse(s.pendingDisconnect.value, DISCONNECT)), Built(TerminatedEvent)]
      else if r.Error? then LaunchFailure(GetOr(s.launchSeq, 0), r.message)
      else []
    case Deadline =>
      if s.disconnectWait.Some? then [Built(SuccessResponse(s.disconnectWait.value, DISCONNECT))] else []
    case Signal =>
      if s.sessionEnded || (!s.attached && s.session.None?) then []
      else [Built(OutputEvent(CONSOLE, SUPERSEDED)), Built(TerminatedEvent)]
    case SinkLine(category, text) => [Built(OutputEvent(category, text + "\n"))]
    case _ => []
  }

  /** Whether a client frame goes on to the child, byte for byte. */
  predicate Forwards(running: bool, f: Frame) {
    match ClassifyClient(f)
    case Malformed => false
    case Launch(_, _) => false
    case Disconnect(_) => !running
    case _ => true
  }

  /** Sent to the child on `e`. */
  function Requests(s: State, e: Event): seq<Out> {
    match e
    case ClientFrame(f, up) => if up && Forwards(s.pipelineRunning, f) then [Raw(f)] else []
    case PipelineDone(r, _, up, up2) =>
      if s.pendingDisconnect.Some? || r.Error? || !up then []
      else if s.mock then [Built(AttachRequest(r.app.pid, s.nextSeq))]
      else [Built(EvaluateRequest(PLATFORM_SELECT, s.nextSeq))]
           + if up2 then [Built(AttachRequest(r.app.pid, s.nextSeq + 1))] else []
    case _ => []
  }

  lemma TellsTwo(s: State, m: Msg, n: Msg)
    ensures Tell(Tell(s, m), n).toClient == s.toClient + [Built(m), Built(n)]
  {}

  lemma TellsThree(s: State, m: Msg, n: Msg, o: Msg)
    ensures Tell(Tell(Tell(s, m), n), o).toClient == s.toClient + [Built(m), Built(n), Built(o)]
  {}

  lemma Nothing<T>(s: seq<T>)
    ensures s + [] == s
  {}

  lemma SaysFailure(s: State, message: string)
    ensures FailLaunch(s, message).toClient == s.toClient + LaunchFailure(GetOr(s.launchSeq, 0), message)
    ensures FailLaunch(s, message).toChild == s.toChild
  {
    TellsThree(s, ErrorResponse(GetOr(s.launchSeq, 0), LAUNCH, message), OutputEvent(STDERR, message + "\n"),
               TerminatedEvent);
  }

  lemma SaysLaunch(s: State, f: Frame, up: bool)
    requires ClassifyClient(f).Launch?
    ensures OnClient(s, f, up).0.toClient == s.toClient + Says(s, ClientFrame(f, up))
    ensures OnClient(s, f, up).0.toChild == s.toChild
  {
    hide ClassifyClient, HandleLaunch, LaunchFailure;
    SaysHandled(s, ClassifyClient(f).seqNo, ClassifyClient(f).config);
  }

  lemma SaysHandled(s: State, q: int, config: Arguments)
    ensures HandleLaunch(s, q, config).0.toChild == s.toChild
    ensures HandleLaunch(s, q, config).0.toClient
         == s.toClient + (if s.pipelineRunning || s.session.Some? then [Built(ErrorResponse(q, LAUNCH, IN_PROGRESS))]
                          else if !s.mock && config.Unparsed? then LaunchFailure(q, BAD_CONFIG + config.error)
                          else [])
  {
    hide FailLaunch, LaunchFailure;
    if config.Unparsed? {
      SaysFailure(s.(launchSeq := Some(q)), BAD_CONFIG + config.error);
    }
    Nothing(s.toClient);
  }

  lemma SaysDisconnect(s: State, q: int, f: Frame, up: bool)
    ensures var r := OnDisconnect(s, q, f, up).0;
            r.toClient == s.toClient
                          + (if !s.pipelineRunning && s.sessionEnded then [Built(SuccessResponse(q, DISCONNECT))] else [])
            && r.toChild == s.toChild + if up && !s.pipelineRunning then [Raw(f)] else []
  {
    Nothing(s.toClient);
    Nothing(s.toChild);
  }

  lemma SaysClient(s: State, f: Frame, up: bool)
    ensures OnClient(s, f, up).0.toClient == s.toClient + Says(s, ClientFrame(f, up))
    ensures OnClient(s, f, up).0.toChild == s.toChild + Requests(s, ClientFrame(f, up))
  {
    hide ClassifyClient, HandleLaunch, OnDisconnect;
    Nothing(s.toClient);
    Nothing(s.toChild);
    match ClassifyClient(f) {
      case Launch(_, _) => { hide OnClient, Says; SaysLaunch(s, f, up); }
      case Disconnect(q) => SaysDisconnect(s, q, f, up);
      case _ =>
    }
  }

  lemma SaysAttached(s: State, v: Body)
    ensures AnswerLaunch(s, v).toClient == s.toClient + Attached(s, v)
    ensures AnswerLaunch(s, v).toChild == s.toChild
  {
    var rewritten := Rewritten(v.(requestSeq := Some(GetOr(s.launchSeq, 0)), command := Some(LAUNCH)));
    TellsTwo(s, rewritten, OutputEvent(CONSOLE, ATTACHED));
    TellsTwo(s, rewritten, OutputEvent(STDERR, ATTACH_FAILED));
  }

  lemma SaysChild(s: State, f: Frame)
    ensures OnChild(s, f).0.toClient == s.toClient + Says(s, ChildFrame(f))
    ensures OnChild(s, f).0.toChild == s.toChild
  {
    assert ClassifyChild(f).InternalResponse? ==> f.json.Some?;
    hide ClassifyChild, TerminalEvent, AnswerLaunch, Attached;
    Nothing(s.toClient);
    if f.json.Some? {
      SaysAttached(s, f.json.value);
    }
  }

  lemma AppendTwice<T>(s: seq<T>, x: T, y: T)
    ensures s + [x] + [y] == s + ([x] + [y])
    ensures s + [x] == s + ([x] + [])
  {}

  lemma SaysAttach(s: State, app: App, claimed: bool, up: bool, up2: bool)
    ensures var r := BeginAttach(ClaimSimulator(s, app, claimed), app, up, up2).0;
            r.toClient == s.toClient
            && r.toChild == s.toChild
               + if !up then []
                 else if s.mock then [Built(AttachRequest(app.pid, s.nextSeq))]
                 else [Built(EvaluateRequest(PLATFORM_SELECT, s.nextSeq))]
                      + if up2 then [Built(AttachRequest(app.pid, s.nextSeq + 1))] else []
  {
    AppendTwice(s.toChild, Built(EvaluateRequest(PLATFORM_SELECT, s.nextSeq)), Built(AttachRequest(app.pid, s.nextSeq + 1)));
    Nothing(s.toChild);
  }

  lemma SaysWindDown(s: State, q: int, r: PipelineResult)
    ensures WindDown(s, q, r).toClient == s.toClient + [Built(SuccessResponse(q, DISCONNECT)), Built(TerminatedEvent)]
    ensures WindDown(s, q, r).toChild == s.toChild
  {
    var u := s.(pendingDisconnect := None);
    TellsTwo(if r.Launched? then Undo(u, r.app) else u, SuccessResponse(q, DISCONNECT), TerminatedEvent);
  }

  lemma SaysPipeline(s: State, r: PipelineResult, claimed: bool, up: bool, up2: bool)
    ensures OnPipelineDone(s, r, claimed, up, up2).0.toClient == s.toClient + Says(s, PipelineDone(r, claimed, up, up2))
    ensures OnPipelineDone(s, r, claimed, up, up2).0.toChild == s.toChild + Requests(s, PipelineDone(r, claimed, up, up2))
  {
    hide FailLaunch, LaunchFailure, BeginAttach, ClaimSimulator, WindDown;
    var t := s.(pipelineRunning := false);
    if s.pendingDisconnect.Some? {
      SaysWindDown(t, s.pendingDisconnect.value, r);
      Nothing(s.toChild);
    } else if r.Launched? {
      SaysAttach(t, r.app, claimed, up, up2);
      Nothing(s.toClient);
    } else {
      SaysFailure(t, r.message);
      Nothing(s.toChild);
    }
  }

  /** Every turn of the loop only appends, and appends exactly this. */
  lemma StepSends(s: State, e: Event)
    requires Enabled(s, e)
    ensures Step(s, e).0.toClient == s.toClient + Says(s, e)
    ensures Step(s, e).0.toChild == s.toChild + Requests(s, e)
  {
    match e {
      case ClientFrame(f, up) => { hide OnClient, Says, Requests; SaysClient(s, f, up); }
      case ChildFrame(f) => { hide OnChild, Says; SaysChild(s, f); Nothing(s.toChild); }
      case PipelineDone(r, claimed, up, up2) => { hide OnPipelineDone, Says, Requests; SaysPipeline(s, r, claimed, up, up2); }
      case _ =>
        Nothing(s.toClient);
        Nothing(s.toChild);
    }
  }

  // -- byte-transparent passthrough -------------------------------------------

  /** The frames passed through on a channel, in order. */
  function RawFrames(outs: seq<Out>): seq<Frame> {
    if outs == [] then [] else (if outs[0].Raw? then [outs[0].frame] else []) + RawFrames(outs[1..])
  }

  lemma Associate<T>(a: seq<T>, b: seq<T>, c: seq<T>)
    ensures a + (b + c) == a + b + c
  {}

  lemma {:induction false} RawFramesAppend(a: seq<Out>, b: seq<Out>)
    ensures RawFrames(a + b) == RawFrames(a) + RawFrames(b)
  {
    if a == [] {
      assert a + b == b;
    } else {
      assert (a + b)[1..] == a[1..] + b && (a + b)[0] == a[0];
      RawFramesAppend(a[1..], b);
      Associate(if a[0].Raw? then [a[0].frame] else [], RawFrames(a[1..]), RawFrames(b));
    }
  }

  /** A launch has been accepted: the first launch frame always is. */
  predicate LaunchSeen(es: seq<Event>) {
    exists k :: 0 <= k < |es| && es[k].ClientFrame? && ClassifyClient(es[k].frame).Launch?
  }

  predicate ResultSeen(es: seq<Event>) {
    exists k :: 0 <= k < |es| && es[k].PipelineDone?
  }

  /** The phase, read off the events alone. */
  predicate PhaseMatches(s: State, es: seq<Event>) {
    (Idle(s) <==> !LaunchSeen(es)) && (Building(s) <==> LaunchSeen(es) && !ResultSeen(es))
    && (Debugging(s) <==> ResultSeen(es))
  }

  lemma {:induction false} PhaseFromEvents(mock: bool, init: Frame, es: seq<Event>)
    requires Legal(Start(mock, init), es) && Exec(Start(mock, init), es).1 == Continue
    ensures PhaseMatches(Exec(Start(mock, init), es).0, es)
  {
    if es != [] {
      hide PhaseMatches, Step, Start, Enabled, Lifecycle;
      var before, e := es[..|es| - 1], es[|es| - 1];
      PhaseFromEvents(mock, init, before);
      LifecycleHolds(mock, init, before);
      LifecycleHolds(mock, init, es);
      PhaseMatchesStep(Exec(Start(mock, init), before).0, before, e);
      assert es == before + [e];
    }
  }

  lemma PhaseMatchesStep(s: State, es: seq<Event>, e: Event)
    requires Lifecycle(s) && PhaseMatches(s, es) && Enabled(s, e) && Step(s, e).1 == Continue && Lifecycle(Step(s, e).0)
    ensures PhaseMatches(Step(s, e).0, es + [e])
  {
    PhaseStep(s, e);
    PhasesExclusive(s);
    PhasesExclusive(Step(s, e).0);
    SeenSnoc(es, e);
    assert e.PipelineDone? ==> Building(s) by { PhaseRunning(s); }
    hide Step, LaunchSeen, ResultSeen, OnlyPrepared, ClassifyClient;
  }

  lemma SeenSnoc(es: seq<Event>, e: Event)
    ensures LaunchSeen(es + [e]) <==> LaunchSeen(es) || (e.ClientFrame? && ClassifyClient(e.frame).Launch?)
    ensures ResultSeen(es + [e]) <==> ResultSeen(es) || e.PipelineDone?
  {
    var all := es + [e];
    assert all[|es|] == e;
    assert forall k :: 0 <= k < |es| ==> all[k] == es[k];
  }

  /** The three fields a phase is made of change only on a launch and on the pipeline's result. */
  predicate SamePhase(s: State, t: State) {
    t.launchSeq == s.launchSeq && t.pipelineRunning == s.pipelineRunning && t.session == s.session && t.attachSeq == s.attachSeq
  }

  lemma PhaseLaunch(s: State, q: int, config: Arguments)
    ensures s.pipelineRunning || s.session.Some? ==> SamePhase(s, HandleLaunch(s, q, config).0)
    ensures Idle(s) && HandleLaunch(s, q, config).1 == Continue ==> Building(HandleLaunch(s, q, config).0)
  {
    hide FailLaunch;
  }

  lemma PhaseDisconnect(s: State, q: int, f: Frame, up: bool)
    ensures SamePhase(s, OnDisconnect(s, q, f, up).0)
  {}

  lemma PhaseClient(s: State, f: Frame, up: bool)
    ensures !ClassifyClient(f).Launch? || s.pipelineRunning || s.session.Some? ==> SamePhase(s, OnClient(s, f, up).0)
    ensures Idle(s) && ClassifyClient(f).Launch? && OnClient(s, f, up).1 == Continue ==> Building(OnClient(s, f, up).0)
  {
    hide ClassifyClient, HandleLaunch, OnDisconnect, Idle, Building;
    match ClassifyClient(f) {
      case Launch(q, config) => PhaseLaunch(s, q, config);
      case Disconnect(q) => PhaseDisconnect(s, q, f, up);
      case _ =>
    }
  }

  lemma PhaseAnswer(s: State, v: Body)
    ensures SamePhase(s, AnswerLaunch(s, v))
  {
    hide RewriteAttachResponse;
  }

  lemma PhaseChild(s: State, f: Frame)
    ensures SamePhase(s, OnChild(s, f).0)
  {
    assert ClassifyChild(f).InternalResponse? ==> f.json.Some?;
    hide ClassifyChild, TerminalEvent, AnswerLaunch;
    if f.json.Some? {
      PhaseAnswer(s, f.json.value);
    }
  }

  lemma PhaseAttach(s: State, app: App, up: bool, up2: bool)
    requires s.launchSeq.Some? && !s.pipelineRunning && BeginAttach(s, app, up, up2).1 == Continue
    ensures Debugging(BeginAttach(s, app, up, up2).0)
  {}

  lemma PhasePipeline(s: State, r: PipelineResult, claimed: bool, up: bool, up2: bool)
    requires Building(s) && OnPipelineDone(s, r, claimed, up, up2).1 == Continue
    ensures Debugging(OnPipelineDone(s, r, claimed, up, up2).0)
  {
    hide FailLaunch, WindDown, BeginAttach;
    if r.Launched? {
      PhaseAttach(ClaimSimulator(s.(pipelineRunning := false), r.app, claimed), r.app, up, up2);
    }
  }

  lemma PhaseStep(s: State, e: Event)
    requires Lifecycle(s) && Enabled(s, e) && Step(s, e).1 == Continue
    ensures Building(s) && !e.PipelineDone? ==> Building(Step(s, e).0)
    ensures e.PipelineDone? ==> Debugging(Step(s, e).0)
    ensures Debugging(s) ==> Debugging(Step(s, e).0)
    ensures Idle(s) ==> if e.ClientFrame? && ClassifyClient(e.frame).Launch? then Building(Step(s, e).0) else Idle(Step(s, e).0)
  {
    hide ClassifyClient, OnClient, OnChild, OnPipelineDone, OnlyPrepared;
    match e {
      case ClientFrame(f, up) => PhaseClient(s, f, up);
      case ChildFrame(f) => PhaseChild(s, f);
      case PipelineDone(r, claimed, up, up2) => PhasePipeline(s, r, claimed, up, up2);
      case _ =>
    }
  }

  /** Client frames that go on to the child: all but launches and disconnects that met a running pipeline
      (and the last one, when the child's writer had gone). */
  function Passed(es: seq<Event>): seq<Frame> {
    if es == [] then [] else
    var before, e := es[..|es| - 1], es[|es| - 1];
    Passed(before) +
    if e.ClientFrame? && e.up && Forwards(LaunchSeen(before) && !ResultSeen(before), e.frame) then [e.frame] else []
  }

  /** Child frames that go on to the client: all but the answers to the proxy's own requests. */
  function PassedBack(es: seq<Event>): seq<Frame> {
    if es == [] then [] else
    var before, e := es[..|es| - 1], es[|es| - 1];
    PassedBack(before) + if e.ChildFrame? && ClassifyChild(e.frame).ChildOther? then [e.frame] else []
  }

  lemma StepPasses(s: State, e: Event)
    requires Enabled(s, e)
    ensures RawFrames(Says(s, e)) == if e.ChildFrame? && ClassifyChild(e.frame).ChildOther? then [e.frame] else []
    ensures RawFrames(Requests(s, e))
         == if e.ClientFrame? && e.up && Forwards(s.pipelineRunning, e.frame) then [e.frame] else []
  {
    hide ClassifyChild, ClassifyClient, Forwards;
    var says, requests := Says(s, e), Requests(s, e);
    assert |says| <= 3 && |requests| <= 2;
    RawFramesShort(says);
    RawFramesShort(requests);
  }

  lemma RawFramesShort(outs: seq<Out>)
    requires |outs| <= 3
    ensures (forall k :: 0 <= k < |outs| ==> outs[k].Built?) ==> RawFrames(outs) == []
    ensures |outs| == 1 && outs[0].Raw? ==> RawFrames(outs) == [outs[0].frame]
  {}

  /** Over every run both directions are byte-transparent, whatever proxy-built messages are interleaved. */
  lemma {:induction false} Passthrough(mock: bool, init: Frame, es: seq<Event>)
    requires Legal(Start(mock, init), es)
    ensures var s := Exec(Start(mock, init), es).0;
            RawFrames(s.toChild) == [init] + Passed(es) && RawFrames(s.toClient) == PassedBack(es)
  {
    var s0 := Start(mock, init);
    if es == [] {
      RawFramesShort(s0.toChild);
    } else {
      hide Step, Start, Forwards, RawFrames, Enabled;
      var before, e := es[..|es| - 1], es[|es| - 1];
      Passthrough(mock, init, before);
      PhaseFromEvents(mock, init, before);
      LifecycleHolds(mock, init, before);
      PhaseRunning(Exec(s0, before).0);
      PassStep(Exec(s0, before).0, e);
    }
  }

  lemma PassStep(s: State, e: Event)
    requires Enabled(s, e)
    ensures RawFrames(Step(s, e).0.toClient)
         == RawFrames(s.toClient) + if e.ChildFrame? && ClassifyChild(e.frame).ChildOther? then [e.frame] else []
    ensures RawFrames(Step(s, e).0.toChild)
         == RawFrames(s.toChild) + if e.ClientFrame? && e.up && Forwards(s.pipelineRunning, e.frame) then [e.frame] else []
  {
    hide Step, Says, Requests, Forwards, ClassifyChild, RawFrames;
    StepSends(s, e);
    StepPasses(s, e);
    RawFramesAppend(s.toClient, Says(s, e));
    RawFramesAppend(s.toChild, Requests(s, e));
  }

  lemma PhaseRunning(s: State)
    requires Lifecycle(s)
    ensures s.pipelineRunning <==> Building(s)
  {}
}
