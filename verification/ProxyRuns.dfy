/** What holds over every run of the proxy's routing loop. */
module ProxyRuns {
  import opened Peek
  import opened Proxy

  // -- lifecycle --------------------------------------------------------------

  predicate Idle(s: State) {
    s.launchSeq.None? && !s.pipelineRunning && s.session.None? && s.attachSeq.None?
  }

  predicate Building(s: State) {
    s.launchSeq.Some? && s.pipelineRunning && s.session.None? && s.attachSeq.None?
  }

  predicate Debugging(s: State) {
    s.launchSeq.Some? && !s.pipelineRunning && s.session.Some? && s.attachSeq.Some?
  }

  /** Nothing has been stopped yet: only the pipeline cancelled and the simulator claimed. */
  predicate OnlyPrepared(effects: seq<Effect>) {
    forall k :: 0 <= k < |effects| ==> effects[k].CancelPipeline? || effects[k].Claim?
  }

  /** The state at every head of the loop. */
  predicate Lifecycle(s: State) {
    && (Idle(s) || Building(s) || Debugging(s))
    && (s.pendingDisconnect.Some? ==> Building(s))
    && (s.attached || s.tailers || s.oslog || s.pidfileUdid.Some? ==> Debugging(s))
    && (s.session.Some? ==> s.session.value.mock == s.mock)
    && (s.debuggeeExited ==> s.sessionEnded)
    && OnlyPrepared(s.effects)
  }

  /** What one handler keeps; the loop goes on only from a lifecycle state. */
  predicate Keeps(s: State, r: (State, Action)) {
    && (r.1 == Continue ==> Lifecycle(r.0))
    && (s.launchSeq.Some? ==> r.0.launchSeq == s.launchSeq)
    && (s.sessionEnded ==> r.0.sessionEnded && r.0.debuggeeExited == s.debuggeeExited)
  }

  lemma PreparedGrows(effects: seq<Effect>, e: Effect)
    requires OnlyPrepared(effects) && (e.CancelPipeline? || e.Claim?)
    ensures OnlyPrepared(effects + [e])
  {}

  lemma LifecycleLaunch(s: State, q: int, config: Arguments)
    requires Lifecycle(s)
    ensures Keeps(s, HandleLaunch(s, q, config))
  {
    hide OnlyPrepared;
  }

  lemma LifecycleDisconnect(s: State, q: int, f: Frame, up: bool)
    requires Lifecycle(s)
    ensures Keeps(s, OnDisconnect(s, q, f, up))
  {
    PreparedGrows(s.effects, CancelPipeline);
    hide OnlyPrepared;
  }

  lemma LifecycleClient(s: State, f: Frame, up: bool)
    requires Lifecycle(s)
    ensures Keeps(s, OnClient(s, f, up))
  {
    hide OnlyPrepared, ClassifyClient, HandleLaunch, OnDisconnect;
    match ClassifyClient(f) {
      case Launch(q, config) => LifecycleLaunch(s, q, config);
      case Disconnect(q) => LifecycleDisconnect(s, q, f, up);
      case _ =>
    }
  }

  lemma LifecycleAttached(s: State, v: Body)
    requires Lifecycle(s) && s.attachSeq.Some?
    ensures Keeps(s, (AnswerLaunch(s, v), Continue))
  {
    hide OnlyPrepared, RewriteAttachResponse;
  }

  lemma LifecycleChild(s: State, f: Frame)
    requires Lifecycle(s)
    ensures Keeps(s, OnChild(s, f))
  {
    assert ClassifyChild(f).InternalResponse? ==> f.json.Some?;
    hide OnlyPrepared, ClassifyChild, TerminalEvent, AnswerLaunch;
    if s.attachSeq.Some? && f.json.Some? {
      LifecycleAttached(s, f.json.value);
    }
  }

  lemma LifecyclePipeline(s: State, r: PipelineResult, claimed: bool, up: bool, up2: bool)
    requires Lifecycle(s) && Enabled(s, PipelineDone(r, claimed, up, up2))
    ensures Keeps(s, OnPipelineDone(s, r, claimed, up, up2))
  {
    if r.Launched? {
      PreparedGrows(s.effects, Claim(r.app.udid));
    }
    hide OnlyPrepared;
  }

  lemma LifecycleStep(s: State, e: Event)
    requires Lifecycle(s) && Enabled(s, e)
    ensures Keeps(s, Step(s, e))
  {
    hide OnClient, OnChild, OnPipelineDone;
    match e {
      case ClientFrame(f, up) => LifecycleClient(s, f, up);
      case ChildFrame(f) => LifecycleChild(s, f);
      case PipelineDone(r, claimed, up, up2) => LifecyclePipeline(s, r, claimed, up, up2);
      case _ =>
    }
  }

  /** At every loop head the run is idle, building or debugging, with the flags each phase allows. */
  lemma {:induction false} LifecycleHolds(mock: bool, init: Frame, es: seq<Event>)
    requires Legal(Start(mock, init), es) && Exec(Start(mock, init), es).1 == Continue
    ensures Lifecycle(Exec(Start(mock, init), es).0)
  {
    if es != [] {
      hide Lifecycle, Step, Enabled;
      var before := es[..|es| - 1];
      LifecycleHolds(mock, init, before);
      LifecycleStep(Exec(Start(mock, init), before).0, es[|es| - 1]);
    } else {
      assert Lifecycle(Start(mock, init));
    }
  }

  /** Exactly one phase at a time. */
  lemma PhasesExclusive(s: State)
    requires Lifecycle(s)
    ensures !(Idle(s) && Building(s)) && !(Building(s) && Debugging(s)) && !(Idle(s) && Debugging(s))
  {}

  /** `launch_seq` is written once: a later loop head sees the number an earlier one saw. */
  lemma {:induction false} LaunchSeqOnce(mock: bool, init: Frame, es: seq<Event>, n: nat)
    requires Legal(Start(mock, init), es) && n < |es|
    ensures Legal(Start(mock, init), es[..n])
    ensures Exec(Start(mock, init), es[..n]).0.launchSeq.Some?
            ==> Exec(Start(mock, init), es).0.launchSeq == Exec(Start(mock, init), es[..n]).0.launchSeq
  {
    hide Lifecycle, Step, Enabled;
    var s0 := Start(mock, init);
    var before := es[..|es| - 1];
    LegalPrefix(s0, es, n);
    LifecycleHolds(mock, init, before);
    LifecycleStep(Exec(s0, before).0, es[|es| - 1]);
    if n < |before| {
      LaunchSeqOnce(mock, init, before, n);
      assert before[..n] == es[..n];
    } else {
      assert before == es[..n];
    }
  }
}
