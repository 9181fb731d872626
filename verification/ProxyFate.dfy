/** What becomes of a launched app when the proxy's loop has ended (dap/proxy.rs). */
module ProxyFate {
  import opened Text
  import opened Peek
  import opened Proxy
  import opened ProxyRuns
  import opened ProxyTraffic

  /** The app the pipeline handed to the loop, if it did. */
  function Delivered(es: seq<Event>): Option<App> {
    if es == [] then None
    else if es[|es| - 1].PipelineDone? && es[|es| - 1].result.Launched? then Some(es[|es| - 1].result.app)
    else Delivered(es[..|es| - 1])
  }

  predicate Stopped(effects: seq<Effect>, app: App) {
    Terminate(app) in effects || KillMock(app) in effects
  }

  /** The pipeline's result ended the loop. */
  predicate EndedByResult(es: seq<Event>) {
    es != [] && es[|es| - 1].PipelineDone?
  }

  lemma PreparedStopsNothing(effects: seq<Effect>, app: App)
    requires OnlyPrepared(effects)
    ensures !Stopped(effects, app)
  {}

  lemma SessionClient(s: State, f: Frame, up: bool)
    requires Lifecycle(s)
    ensures OnClient(s, f, up).0.session == s.session && OnlyPrepared(OnClient(s, f, up).0.effects)
    ensures OnClient(s, f, up).0.mock == s.mock
  {
    hide ClassifyClient, HandleLaunch, OnDisconnect, OnlyPrepared;
    match ClassifyClient(f) {
      case Launch(q, config) => SessionLaunch(s, q, config);
      case Disconnect(q) => SessionDisconnect(s, q, f, up);
      case _ =>
    }
  }

  lemma SessionLaunch(s: State, q: int, config: Arguments)
    ensures var t := HandleLaunch(s, q, config).0;
            t.session == s.session && t.effects == s.effects && t.mock == s.mock
  {
    hide FailLaunch, Tell;
    TellQuiet(s, ErrorResponse(q, LAUNCH, IN_PROGRESS));
    if config.Unparsed? {
      FailureKeeps(s.(launchSeq := Some(q)), BAD_CONFIG + config.error);
    }
  }

  lemma FailureKeeps(s: State, message: string)
    ensures var t := FailLaunch(s, message);
            t.session == s.session && t.effects == s.effects && t.mock == s.mock
  {}

  lemma SessionDisconnect(s: State, q: int, f: Frame, up: bool)
    requires OnlyPrepared(s.effects)
    ensures var t := OnDisconnect(s, q, f, up).0;
            t.session == s.session && OnlyPrepared(t.effects) && t.mock == s.mock
  {
    PreparedGrows(s.effects, CancelPipeline);
    hide OnlyPrepared;
  }

  lemma SessionAnswer(s: State, v: Body)
    ensures AnswerLaunch(s, v).session == s.session && AnswerLaunch(s, v).effects == s.effects
    ensures AnswerLaunch(s, v).mock == s.mock
  {
    hide RewriteAttachResponse, Tell, StartTailers;
    var (msg, _) := RewriteAttachResponse(v, GetOr(s.launchSeq, 0));
    var t := Tell(s, msg);
    TellQuiet(s, msg);
    TellQuiet(t, OutputEvent(STDERR, ATTACH_FAILED));
    TellQuiet(t.(attached := true), OutputEvent(CONSOLE, ATTACHED));
    TailersQuiet(Tell(t.(attached := true), OutputEvent(CONSOLE, ATTACHED)));
  }

  lemma TellQuiet(s: State, m: Msg)
    ensures Tell(s, m).session == s.session && Tell(s, m).effects == s.effects && Tell(s, m).mock == s.mock
  {}

  lemma TailersQuiet(s: State)
    ensures var t := StartTailers(s); t.session == s.session && t.effects == s.effects && t.mock == s.mock
  {}

  lemma SessionChild(s: State, f: Frame)
    ensures OnChild(s, f).0.session == s.session && OnChild(s, f).0.effects == s.effects
    ensures OnChild(s, f).0.mock == s.mock
  {
    assert ClassifyChild(f).InternalResponse? ==> f.json.Some?;
    hide ClassifyChild, TerminalEvent, AnswerLaunch;
    if f.json.Some? {
      SessionAnswer(s, f.json.value);
    }
  }

  /** Only the pipeline's result sets the session. */
  lemma SessionKept(s: State, e: Event)
    requires Lifecycle(s) && Enabled(s, e) && !e.PipelineDone?
    ensures Step(s, e).0.session == s.session && OnlyPrepared(Step(s, e).0.effects) && Step(s, e).0.mock == s.mock
  {
    hide OnClient, OnChild, OnlyPrepared;
    match e {
      case ClientFrame(f, up) => SessionClient(s, f, up);
      case ChildFrame(f) => SessionChild(s, f);
      case _ =>
    }
  }

  lemma SessionAttach(s: State, app: App, up: bool, up2: bool)
    ensures var (t, a) := BeginAttach(s, app, up, up2);
            t.effects == s.effects && t.pipelineRunning == s.pipelineRunning && t.mock == s.mock
            && if a == Continue then t.session == Some(app) else t.session == s.session
  {
    hide SendAttach, Ask;
    var t := s.(nextSeq := s.nextSeq + 1);
    var u := Ask(t, Built(EvaluateRequest(PLATFORM_SELECT, s.nextSeq)));
    AskQuiet(t, Built(EvaluateRequest(PLATFORM_SELECT, s.nextSeq)));
    SendSets(s, app, up);
    SendSets(u, app, up2);
  }

  lemma AskQuiet(s: State, out: Out)
    ensures var t := Ask(s, out);
            t.effects == s.effects && t.pipelineRunning == s.pipelineRunning && t.mock == s.mock
            && t.session == s.session
  {}

  lemma SendSets(s: State, app: App, up: bool)
    ensures var (t, a) := SendAttach(s, app, up);
            t.effects == s.effects && t.pipelineRunning == s.pipelineRunning && t.mock == s.mock
            && if a == Continue then t.session == Some(app) else t.session == s.session
  {}

  lemma SessionSet(s: State, app: App, claimed: bool, up: bool, up2: bool)
    requires Building(s) && Lifecycle(s)
    ensures var (t, a) := OnPipelineDone(s, Launched(app), claimed, up, up2);
            !t.pipelineRunning
            && (a == Continue ==> t.session == Some(app))
            && (a != Continue ==> t.session.None? && (Stopped(t.effects, app) <==> s.pendingDisconnect.Some?))
  {
    hide BeginAttach, OnlyPrepared, Stopped;
    var t := s.(pipelineRunning := false);
    if s.pendingDisconnect.Some? {
      UndoStops(t, s.pendingDisconnect.value, app);
    } else {
      SessionAttach(ClaimSimulator(t, app, claimed), app, up, up2);
      PreparedGrows(s.effects, Claim(app.udid));
      PreparedStopsNothing(ClaimSimulator(t, app, claimed).effects, app);
    }
  }

  lemma UndoStops(s: State, q: int, app: App)
    ensures Stopped(WindDown(s, q, Launched(app)).effects, app)
  {
    var e := if app.mock then KillMock(app) else Terminate(app);
    var t := WindDown(s, q, Launched(app));
    assert t.effects == s.effects + [e];
    assert t.effects[|s.effects|] == e;
  }

  /** At a loop head the session holds exactly the app that was delivered. */
  lemma {:induction false} SessionIsDelivered(mock: bool, init: Frame, es: seq<Event>)
    requires Legal(Start(mock, init), es) && Exec(Start(mock, init), es).1 == Continue
    ensures Exec(Start(mock, init), es).0.session == Delivered(es)
    ensures Exec(Start(mock, init), es).0.mock == mock
  {
    if es != [] {
      hide Step, Start, Enabled, Lifecycle;
      var before, e := es[..|es| - 1], es[|es| - 1];
      SessionIsDelivered(mock, init, before);
      LifecycleHolds(mock, init, before);
      LifecycleHolds(mock, init, es);
      SessionStep(Exec(Start(mock, init), before).0, e);
    }
  }

  lemma SessionStep(s: State, e: Event)
    requires Lifecycle(s) && Enabled(s, e) && Step(s, e).1 == Continue
    ensures Step(s, e).0.mock == s.mock
    ensures Step(s, e).0.session
         == if e.PipelineDone? && e.result.Launched? then Some(e.result.app) else s.session
  {
    hide OnlyPrepared;
    if e.PipelineDone? {
      PhaseRunning(s);
      hide OnPipelineDone;
      ResultContinues(s, e.result, e.claimed, e.up, e.up2);
      SessionSet(s, e.result.app, e.claimed, e.up, e.up2);
    } else {
      hide Step, Enabled;
      SessionKept(s, e);
    }
  }

  lemma ResultContinues(s: State, r: PipelineResult, claimed: bool, up: bool, up2: bool)
    requires OnPipelineDone(s, r, claimed, up, up2).1 == Continue
    ensures r.Launched? && OnPipelineDone(s, r, claimed, up, up2).0.mock == s.mock
  {
    hide BeginAttach, ClaimSimulator, WindDown, FailLaunch;
    if r.Launched? {
      var t := s.(pipelineRunning := false);
      ClaimAdds(t, r.app, claimed);
      SessionAttach(ClaimSimulator(t, r.app, claimed), r.app, up, up2);
    }
  }

  // -- teardown ---------------------------------------------------------------

  /** What stopping the app adds to the effects. */
  function StopEffects(s: State, stillOurs: bool): seq<Effect> {
    match s.session
    case None => []
    case Some(app) =>
      if app.mock then [KillMock(app)]
      else if ShouldTerminate(s.attached, app.terminateOnStop, Superseded(s, stillOurs), s.debuggeeExited)
      then [Terminate(app)] else []
  }

  function ReleaseEffects(s: State): seq<Effect> {
    if s.pidfileUdid.Some? then [Release(s.pidfileUdid.value)] else []
  }

  lemma StopEffectsOf(s: State, stillOurs: bool)
    ensures StopApp(s, stillOurs).effects == s.effects + StopEffects(s, stillOurs)
  {
    hide ShouldTerminate, Superseded, Do;
    if s.session.Some? {
      DoAdds(s.(session := None), KillMock(s.session.value));
      DoAdds(s.(session := None), Terminate(s.session.value));
    }
  }

  lemma DoAdds(s: State, e: Effect)
    ensures Do(s, e).effects == s.effects + [e]
  {}

  lemma StopKeepsClaim(s: State, stillOurs: bool)
    ensures StopApp(s, stillOurs).pidfileUdid == s.pidfileUdid
  {
    hide ShouldTerminate, Superseded, Do;
    if s.session.Some? {
      DoKeepsClaim(s.(session := None), KillMock(s.session.value));
      DoKeepsClaim(s.(session := None), Terminate(s.session.value));
    }
  }

  lemma DoKeepsClaim(s: State, e: Effect)
    ensures Do(s, e).pidfileUdid == s.pidfileUdid
  {}

  lemma ReleaseEffectsOf(s: State)
    ensures ReleasePidfile(s).effects == s.effects + ReleaseEffects(s)
  {}

  lemma StopEffectsQuiet(s: State, stillOurs: bool)
    ensures StopEffects(s.(tailers := false, oslog := false), stillOurs) == StopEffects(s, stillOurs)
  {
    hide ShouldTerminate;
  }

  lemma TeardownEffects(s: State, drained: Option<PipelineResult>, stillOurs: bool)
    requires !s.pipelineRunning
    ensures Teardown(s, drained, stillOurs).effects == s.effects + (StopEffects(s, stillOurs) + ReleaseEffects(s))
  {
    hide StopApp, ReleasePidfile, StopEffects;
    var t := s.(tailers := false, oslog := false);
    StopEffectsQuiet(s, stillOurs);
    StopEffectsOf(t, stillOurs);
    StopKeepsClaim(t, stillOurs);
    ReleaseEffectsOf(StopApp(t, stillOurs));
  }

  lemma TeardownDrains(s: State, drained: Option<PipelineResult>, stillOurs: bool)
    ensures var t := DrainPipeline(s, drained).(pipelineRunning := false);
            Teardown(s, drained, stillOurs).effects == t.effects + (StopEffects(t, stillOurs) + ReleaseEffects(t))
  {
    hide StopApp, ReleasePidfile, StopEffects, DrainPipeline;
    var t := DrainPipeline(s, drained);
    var quiet := t.(tailers := false, oslog := false);
    StopEffectsQuiet(t, stillOurs);
    StopEffectsNotRunning(t, stillOurs);
    StopEffectsOf(quiet, stillOurs);
    StopKeepsClaim(quiet, stillOurs);
    ReleaseEffectsOf(StopApp(quiet, stillOurs));
  }

  lemma StopEffectsNotRunning(s: State, stillOurs: bool)
    ensures StopEffects(s.(pipelineRunning := false), stillOurs) == StopEffects(s, stillOurs)
  {
    hide ShouldTerminate;
  }

  lemma TeardownStops(s: State, drained: Option<PipelineResult>, stillOurs: bool, app: App)
    requires !s.pipelineRunning && OnlyPrepared(s.effects) && (s.session.Some? ==> s.session.value == app)
    ensures Stopped(Teardown(s, drained, stillOurs).effects, app)
        <==> s.session.Some?
             && (app.mock || ShouldTerminate(s.attached, app.terminateOnStop, Superseded(s, stillOurs), s.debuggeeExited))
  {
    TeardownEffects(s, drained, stillOurs);
    PreparedStopsNothing(s.effects, app);
    StoppedConcat(s.effects, StopEffects(s, stillOurs) + ReleaseEffects(s), app);
    StoppedConcat(StopEffects(s, stillOurs), ReleaseEffects(s), app);
    hide Teardown, OnlyPrepared, ShouldTerminate;
  }

  lemma StoppedConcat(a: seq<Effect>, b: seq<Effect>, app: App)
    ensures Stopped(a + b, app) <==> Stopped(a, app) || Stopped(b, app)
  {}

  /** The last lines have no part in what is done: the effects are those of a silent teardown. */
  lemma LinesChangeNothing(s: State, drained: Option<PipelineResult>, lines: seq<(string, string)>, stillOurs: bool)
    ensures TeardownSaying(s, drained, lines, stillOurs).effects == Teardown(s, drained, stillOurs).effects
  {
    var t := DrainPipeline(s, drained).(tailers := false, oslog := false);
    var said := t.(toClient := DrainPipeline(s, drained).toClient + Outputs(lines));
    StopEffectsSaid(t, said.toClient, stillOurs);
    hide StopApp, ReleasePidfile, StopEffects, DrainPipeline, Outputs;
    StopEffectsOf(t, stillOurs);
    StopEffectsOf(said, stillOurs);
    StopKeepsClaim(t, stillOurs);
    StopKeepsClaim(said, stillOurs);
    ReleaseEffectsOf(StopApp(t, stillOurs));
    ReleaseEffectsOf(StopApp(said, stillOurs));
  }

  lemma StopEffectsSaid(s: State, said: seq<Out>, stillOurs: bool)
    ensures StopEffects(s.(toClient := said), stillOurs) == StopEffects(s, stillOurs)
  {
    hide ShouldTerminate;
  }

  /** What became of the app the loop was given: if its arrival ended the loop, it was stopped exactly when a
      disconnect was waiting (a refused attach request drops it running); otherwise teardown stops it exactly
      when it is the mock app, or none of superseded, exited, or attached with `terminateOnStop` off holds. */
  lemma AppFate(mock: bool, init: Frame, es: seq<Event>, drained: Option<PipelineResult>, stillOurs: bool, app: App)
    requires Legal(Start(mock, init), es) && Exec(Start(mock, init), es).1 != Continue
    requires Delivered(es) == Some(app)
    ensures var s := Exec(Start(mock, init), es).0;
            Stopped(Teardown(s, drained, stillOurs).effects, app)
            <==> if EndedByResult(es) then Exec(Start(mock, init), es[..|es| - 1]).0.pendingDisconnect.Some?
                 else app.mock || (!Superseded(s, stillOurs) && !s.debuggeeExited && (!s.attached || app.terminateOnStop))
  {
    var s0, before, e := Start(mock, init), es[..|es| - 1], es[|es| - 1];
    var s := Exec(s0, before).0;
    LifecycleHolds(mock, init, before);
    SessionIsDelivered(mock, init, before);
    if e.PipelineDone? {
      PhaseRunning(s);
      FateOfResult(s, e, drained, stillOurs, app, Delivered(before));
    } else {
      SessionKept(s, e);
      FateRunning(s, e);
      TeardownStops(Step(s, e).0, drained, stillOurs, app);
    }
  }

  lemma FateRunning(s: State, e: Event)
    requires Lifecycle(s) && Enabled(s, e) && s.session.Some? && !e.PipelineDone?
    ensures !Step(s, e).0.pipelineRunning
  {
    hide OnClient, OnChild, OnPipelineDone, OnlyPrepared;
    match e {
      case ClientFrame(f, up) => PhaseClient(s, f, up);
      case ChildFrame(f) => PhaseChild(s, f);
      case _ =>
    }
  }

  lemma FateOfResult(s: State, e: Event, drained: Option<PipelineResult>, stillOurs: bool, app: App, earlier: Option<App>)
    requires Lifecycle(s) && Building(s) && Enabled(s, e) && e.PipelineDone? && Step(s, e).1 != Continue
    requires e.result.Launched? && e.result.app == app
    ensures Stopped(Teardown(Step(s, e).0, drained, stillOurs).effects, app) <==> s.pendingDisconnect.Some?
  {
    var t := Step(s, e).0;
    SessionSet(s, app, e.claimed, e.up, e.up2);
    hide OnPipelineDone, Step, Teardown;
    TeardownEffects(t, drained, stillOurs);
    StoppedConcat(t.effects, StopEffects(t, stillOurs) + ReleaseEffects(t), app);
    StoppedConcat(StopEffects(t, stillOurs), ReleaseEffects(t), app);
  }

  /** A pipeline that was still running when the loop ended and delivers late: the app is stopped unless a
      debuggee had been reported gone. */
  lemma DrainedFate(mock: bool, init: Frame, es: seq<Event>, stillOurs: bool, app: App)
    requires Legal(Start(mock, init), es) && Exec(Start(mock, init), es).1 != Continue
    requires Exec(Start(mock, init), es).0.pipelineRunning
    ensures var s := Exec(Start(mock, init), es).0;
            Stopped(Teardown(s, Some(Launched(app)), stillOurs).effects, app) <==> app.mock || !s.debuggeeExited
  {
    var s0, before, e := Start(mock, init), es[..|es| - 1], es[|es| - 1];
    var s := Exec(s0, before).0;
    LifecycleHolds(mock, init, before);
    StillBuilding(s, e);
    var t := DrainPipeline(Step(s, e).0, Some(Launched(app))).(pipelineRunning := false);
    PreparedGrows(Step(s, e).0.effects, CancelPipeline);
    TeardownStops(t, None, stillOurs, app);
  }

  /** While the pipeline runs nothing is attached and no simulator claimed. */
  lemma StillBuilding(s: State, e: Event)
    requires Lifecycle(s) && Enabled(s, e) && Step(s, e).1 != Continue && Step(s, e).0.pipelineRunning
    ensures var t := Step(s, e).0;
            !t.attached && t.pidfileUdid.None? && t.session.None? && OnlyPrepared(t.effects)
  {
    hide OnlyPrepared, OnClient, OnChild, OnPipelineDone;
    match e {
      case ClientFrame(f, up) =>
        PhaseClient(s, f, up);
        SessionClient(s, f, up);
        EndingFlags(s, f, up);
      case ChildFrame(f) => EndingChild(s, f);
      case PipelineDone(r, claimed, up, up2) => ResultEffects(s, r, claimed, up, up2);
      case _ =>
    }
  }

  lemma EndingFlags(s: State, f: Frame, up: bool)
    requires OnClient(s, f, up).1 != Continue
    ensures var t := OnClient(s, f, up).0;
            t.attached == s.attached && t.pidfileUdid == s.pidfileUdid
            && (t.pipelineRunning ==> s.pipelineRunning)
  {
    hide ClassifyClient, HandleLaunch, OnDisconnect;
    match ClassifyClient(f) {
      case Launch(q, config) => EndingLaunch(s, q, config);
      case Disconnect(q) => EndingDisconnect(s, q, f, up);
      case _ =>
    }
  }

  lemma EndingLaunch(s: State, q: int, config: Arguments)
    requires HandleLaunch(s, q, config).1 != Continue
    ensures var t := HandleLaunch(s, q, config).0;
            t.attached == s.attached && t.pidfileUdid == s.pidfileUdid && t.pipelineRunning == s.pipelineRunning
  {}

  lemma EndingDisconnect(s: State, q: int, f: Frame, up: bool)
    requires OnDisconnect(s, q, f, up).1 != Continue
    ensures var t := OnDisconnect(s, q, f, up).0;
            t.attached == s.attached && t.pidfileUdid == s.pidfileUdid && t.pipelineRunning == s.pipelineRunning
  {}

  lemma EndingChild(s: State, f: Frame)
    requires OnChild(s, f).1 != Continue
    ensures OnChild(s, f).0 == s
  {
    hide ClassifyChild, TerminalEvent, AnswerLaunch;
  }

  lemma FailureQuiet(s: State, message: string)
    ensures FailLaunch(s, message).pipelineRunning == s.pipelineRunning
    ensures FailLaunch(s, message).effects == s.effects
  {}

  lemma WindDownUndoes(s: State, q: int, r: PipelineResult)
    ensures WindDown(s, q, r).pipelineRunning == s.pipelineRunning
    ensures WindDown(s, q, r).effects
         == s.effects + (if r.Launched? then [if r.app.mock then KillMock(r.app) else Terminate(r.app)] else [])
  {
    hide Tell, Undo;
    var u := s.(pendingDisconnect := None);
    var t := if r.Launched? then Undo(u, r.app) else u;
    if r.Launched? {
      UndoAdds(u, r.app);
    }
    TellRunning(t, SuccessResponse(q, DISCONNECT));
    TellRunning(Tell(t, SuccessResponse(q, DISCONNECT)), TerminatedEvent);
  }

  lemma UndoAdds(s: State, app: App)
    ensures Undo(s, app).effects == s.effects + [if app.mock then KillMock(app) else Terminate(app)]
    ensures Undo(s, app).pipelineRunning == s.pipelineRunning
  {}

  lemma TellRunning(s: State, m: Msg)
    ensures Tell(s, m).effects == s.effects && Tell(s, m).pipelineRunning == s.pipelineRunning
  {}

  lemma ClaimAdds(s: State, app: App, claimed: bool)
    ensures ClaimSimulator(s, app, claimed).effects == s.effects + (if claimed then [Claim(app.udid)] else [])
    ensures ClaimSimulator(s, app, claimed).pipelineRunning == s.pipelineRunning
    ensures ClaimSimulator(s, app, claimed).mock == s.mock
  {}

  /** The pipeline's result stops the pipeline, and its effects are the undo or the claim. */
  lemma ResultEffects(s: State, r: PipelineResult, claimed: bool, up: bool, up2: bool)
    ensures var t := OnPipelineDone(s, r, claimed, up, up2).0;
            !t.pipelineRunning
            && (t.effects == s.effects || exists e :: t.effects == s.effects + [e] && !e.Release?)
  {
    hide BeginAttach, WindDown, FailLaunch, ClaimSimulator;
    var t := s.(pipelineRunning := false);
    if s.pendingDisconnect.Some? {
      WindDownUndoes(t, s.pendingDisconnect.value, r);
    } else if r.Launched? {
      ClaimAdds(t, r.app, claimed);
      SessionAttach(ClaimSimulator(t, r.app, claimed), r.app, up, up2);
    } else {
      FailureQuiet(t, r.message);
    }
  }

  predicate NothingReleased(effects: seq<Effect>) {
    forall k :: 0 <= k < |effects| ==> !effects[k].Release?
  }

  lemma NotReleasedYet(s: State, e: Event)
    requires Lifecycle(s) && Enabled(s, e)
    ensures NothingReleased(Step(s, e).0.effects)
  {
    assert OnlyPrepared(s.effects) ==> NothingReleased(s.effects);
    if e.PipelineDone? {
      ResultEffects(s, e.result, e.claimed, e.up, e.up2);
      hide OnPipelineDone, Lifecycle;
    } else {
      hide Step;
      SessionKept(s, e);
    }
  }

  /** Over a whole run with its teardown, the pidfile is given up at most once and last of all: every request to
      end the app comes before it. */
  lemma TerminateBeforeRelease(mock: bool, init: Frame, es: seq<Event>, drained: Option<PipelineResult>, stillOurs: bool)
    requires Legal(Start(mock, init), es) && Exec(Start(mock, init), es).1 != Continue
    ensures var effects := Teardown(Exec(Start(mock, init), es).0, drained, stillOurs).effects;
            forall j :: 0 <= j < |effects| && effects[j].Release? ==> j == |effects| - 1
  {
    var before, e := es[..|es| - 1], es[|es| - 1];
    LifecycleHolds(mock, init, before);
    NotReleasedYet(Exec(Start(mock, init), before).0, e);
    var s := Exec(Start(mock, init), es).0;
    hide Exec, Legal, Step, Start, ShouldTerminate, Lifecycle;
    ReleasedLast(s, drained, stillOurs);
  }

  lemma ReleasedLast(s: State, drained: Option<PipelineResult>, stillOurs: bool)
    requires NothingReleased(s.effects)
    ensures var effects := Teardown(s, drained, stillOurs).effects;
            forall j :: 0 <= j < |effects| && effects[j].Release? ==> j == |effects| - 1
  {
    hide Teardown, StopApp, DrainPipeline, StopEffects;
    TeardownDrains(s, drained, stillOurs);
    DrainReleasesNothing(s, drained);
    StopReleasesNothing(DrainPipeline(s, drained).(pipelineRunning := false), stillOurs);
  }

  lemma DrainReleasesNothing(s: State, drained: Option<PipelineResult>)
    requires NothingReleased(s.effects)
    ensures NothingReleased(DrainPipeline(s, drained).effects)
  {
    DrainEffects(s, drained);
    hide DrainPipeline;
  }

  lemma DrainEffects(s: State, drained: Option<PipelineResult>)
    ensures DrainPipeline(s, drained).effects
         == s.effects + (if s.pipelineRunning then [CancelPipeline] else [])
  {
    hide Do;
    DoAdds(s, CancelPipeline);
  }

  lemma StopReleasesNothing(s: State, stillOurs: bool)
    ensures NothingReleased(StopEffects(s, stillOurs))
  {
    hide ShouldTerminate, Superseded;
  }

  // -- the app that is dropped ------------------------------------------------

  function LaunchFrame(q: int, config: Config): Frame {
    Frame([], Some(Body(Some("request"), Some("launch"), None, Some(q), None, None, Parsed(config))))
  }

  /** A launch whose app came up, with lldb-dap's writer gone by then. */
  function DroppedRun(q: int, config: Config, app: App): seq<Event> {
    [ClientFrame(LaunchFrame(q, config), true), PipelineDone(Launched(app), true, false, false)]
  }

  /** A run that leaves its own launched app running: nothing stops it, whoever owns the simulator by then. */
  lemma AppDropped(init: Frame, q: int, config: Config, app: App, drained: Option<PipelineResult>, stillOurs: bool)
    requires !app.mock
    ensures var es := DroppedRun(q, config, app);
            Legal(Start(false, init), es) && Exec(Start(false, init), es).1 != Continue
            && Delivered(es) == Some(app)
            && !Stopped(Teardown(Exec(Start(false, init), es).0, drained, stillOurs).effects, app)
  {
    var s0, es := Start(false, init), DroppedRun(q, config, app);
    assert es[..1][..0] == [];
    assert Legal(s0, []) && Legal(s0, es[..1]);
    assert Exec(s0, es[..1]).0 == s0.(launchSeq := Some(q), pipelineRunning := true);
    assert Legal(s0, es);
    hide Stopped, Teardown;
    AppFate(false, init, es, drained, stillOurs, app);
  }
}
