/** The proxy as a function of its history (dap/proxy.rs, dap/peek.rs): what it remembers, says and does over a run,
    read off the members of the frames that arrived, without its state. */
module ProxyHistory {
  import opened Text
  import opened Peek
  import opened Proxy
  import ProxyRuns
  import ProxyTraffic
  import ProxyFate

  // -- frames -----------------------------------------------------------------

  predicate IsRequest(f: Frame, command: string) {
    f.json.Some? && f.json.value.kind == Some("request") && f.json.value.command == Some(command)
  }

  predicate IsEvent(f: Frame, name: string) {
    f.json.Some? && f.json.value.kind == Some("event") && f.json.value.event == Some(name)
  }

  /** A response to one of the proxy's own requests. */
  predicate IsInternal(f: Frame) {
    f.json.Some? && f.json.value.kind == Some("response")
    && f.json.value.requestSeq.Some? && f.json.value.requestSeq.value >= 1_000_000
  }

  predicate AnswersNumber(f: Frame, q: int) {
    f.json.Some? && f.json.value.kind == Some("response") && f.json.value.requestSeq == Some(q)
  }

  /** The number of a request; a missing one reads as zero. */
  function Number(f: Frame): int {
    if f.json.Some? && f.json.value.seqNo.Some? then f.json.value.seqNo.value else 0
  }

  // -- what a history says ----------------------------------------------------

  ghost predicate LaunchIn(es: seq<Event>) {
    exists k :: 0 <= k < |es| && es[k].ClientFrame? && IsRequest(es[k].frame, "launch")
  }

  ghost predicate ResultIn(es: seq<Event>) {
    exists k :: 0 <= k < |es| && es[k].PipelineDone?
  }

  ghost predicate Builds(es: seq<Event>) {
    LaunchIn(es) && !ResultIn(es)
  }

  predicate Disconnects(e: Event) {
    e.ClientFrame? && IsRequest(e.frame, "disconnect")
  }

  /** The number of the first launch. */
  ghost function FirstLaunch(es: seq<Event>): Option<int> {
    if es == [] then None
    else
      var before, e := es[..|es| - 1], es[|es| - 1];
      if FirstLaunch(before).Some? then FirstLaunch(before)
      else if e.ClientFrame? && IsRequest(e.frame, "launch") then Some(Number(e.frame)) else None
  }

  /** The number of the last disconnect that met a build. */
  ghost function Cancelling(es: seq<Event>): Option<int> {
    if es == [] then None
    else
      var before, e := es[..|es| - 1], es[|es| - 1];
      if Disconnects(e) && Builds(before) then Some(Number(e.frame)) else Cancelling(before)
  }

  /** The number of the last disconnect that did not. */
  ghost function Awaited(es: seq<Event>): Option<int> {
    if es == [] then None
    else
      var before, e := es[..|es| - 1], es[|es| - 1];
      if Disconnects(e) && !Builds(before) then Some(Number(e.frame)) else Awaited(before)
  }

  predicate EndsSession(e: Event) {
    e.ChildFrame? && (IsEvent(e.frame, "exited") || IsEvent(e.frame, "terminated"))
  }

  /** lldb-dap has said that the session is over. */
  ghost predicate Ended(es: seq<Event>) {
    exists i :: 0 <= i < |es| && EndsSession(es[i])
  }

  /** The first it said of that is that the process has gone. */
  ghost predicate ExitedFirst(es: seq<Event>) {
    exists i :: 0 <= i < |es| && es[i].ChildFrame? && IsEvent(es[i].frame, "exited")
                && forall j :: 0 <= j < i ==> !EndsSession(es[j])
  }

  /** The attach request is the proxy's first, or on a simulator its second after `platform select`. */
  function AttachNumber(mock: bool): int {
    if mock then 1_000_000 else 1_000_001
  }

  predicate AttachSucceeds(mock: bool, e: Event) {
    e.ChildFrame? && AnswersNumber(e.frame, AttachNumber(mock)) && e.frame.json.value.success == Some(true)
  }

  /** The attach request was answered with success. */
  ghost predicate AttachedBy(mock: bool, es: seq<Event>) {
    exists j, i :: 0 <= j < i < |es| && es[j].PipelineDone? && AttachSucceeds(mock, es[i])
  }

  /** The simulator that was claimed for the app. */
  ghost function ClaimedBy(es: seq<Event>): Option<string> {
    if es == [] then None
    else
      var before, e := es[..|es| - 1], es[|es| - 1];
      if e.PipelineDone? && e.result.Launched? && e.claimed && Cancelling(before).None? then Some(e.result.app.udid)
      else ClaimedBy(before)
  }

  function Ends(app: App): Effect {
    if app.mock then KillMock(app) else Terminate(app)
  }

  /** What was done outside the channels while the loop ran. */
  ghost function Done(es: seq<Event>): seq<Effect> {
    if es == [] then []
    else
      var before, e := es[..|es| - 1], es[|es| - 1];
      Done(before)
      + if Disconnects(e) && Builds(before) then [CancelPipeline]
        else if e.PipelineDone? && e.result.Launched? then
          if Cancelling(before).Some? then [Ends(e.result.app)]
          else if e.claimed then [Claim(e.result.app.udid)] else []
        else []
  }

  // -- what the proxy says and asks -------------------------------------------

  function Failure(q: int, message: string): seq<Out> {
    [Built(ErrorResponse(q, "launch", message)), Built(OutputEvent("stderr", message + "\n")), Built(TerminatedEvent)]
  }

  function NumberOr(q: Option<int>): int {
    if q.Some? then q.value else 0
  }

  /** What the client gets to hear on `e` after the history `h`. */
  ghost function Speaks(mock: bool, h: seq<Event>, e: Event): seq<Out> {
    match e
    case ClientFrame(f, _) =>
      if IsRequest(f, "launch") then
        if LaunchIn(h) then
          [Built(ErrorResponse(Number(f), "launch", "a launch is already in progress in this session"))]
        else if !mock && f.json.value.config.Unparsed?
        then Failure(Number(f), "invalid launch configuration: " + f.json.value.config.error)
        else []
      else if IsRequest(f, "disconnect") && !Builds(h) && Ended(h)
      then [Built(SuccessResponse(Number(f), "disconnect"))]
      else []
    case ChildFrame(f) =>
      if f.json.None? then []
      else if !IsInternal(f) then [Raw(f)]
      else if ResultIn(h) && AnswersNumber(f, AttachNumber(mock)) then
        [Built(Rewritten(f.json.value.(requestSeq := Some(NumberOr(FirstLaunch(h))), command := Some("launch")))),
         Built(if f.json.value.success == Some(true) then OutputEvent("console", "Debugger attached\n")
               else OutputEvent("stderr", "Debugger attach failed\n"))]
      else []
    case PipelineDone(r, _, _, _) =>
      if Cancelling(h).Some?
      then [Built(SuccessResponse(Cancelling(h).value, "disconnect")), Built(TerminatedEvent)]
      else if r.Error? then Failure(NumberOr(FirstLaunch(h)), r.message)
      else []
    case Deadline => [Built(SuccessResponse(NumberOr(Awaited(h)), "disconnect"))]
    case Signal =>
      if Ended(h) || !ResultIn(h) then []
      else [Built(OutputEvent("console", "Superseded by a new run \U{2014} stopping this session.\n")), Built(TerminatedEvent)]
    case SinkLine(category, text) => [Built(OutputEvent(category, text + "\n"))]
    case _ => []
  }

  /** What lldb-dap is sent. */
  ghost function Demands(mock: bool, h: seq<Event>, e: Event): seq<Out> {
    match e
    case ClientFrame(f, up) =>
      if !up || f.json.None? || IsRequest(f, "launch") || (IsRequest(f, "disconnect") && Builds(h)) then [] else [Raw(f)]
    case PipelineDone(r, _, up, up2) =>
      if Cancelling(h).Some? || r.Error? || !up then []
      else if mock then [Built(AttachRequest(r.app.pid, 1_000_000))]
      else [Built(EvaluateRequest("platform select ios-simulator", 1_000_000))]
           + if up2 then [Built(AttachRequest(r.app.pid, 1_000_001))] else []
    case _ => []
  }

  /** Whether the loop goes on after `e`, and with which exit code it ends otherwise. */
  ghost function Verdict(mock: bool, h: seq<Event>, e: Event): Action {
    match e
    case ClientFrame(f, up) =>
      if f.json.None? then Exit(1)
      else if IsRequest(f, "launch") then
        if !LaunchIn(h) && !mock && f.json.value.config.Unparsed? then Exit(1) else Continue
      else if IsRequest(f, "disconnect") && Builds(h) then Continue
      else if IsRequest(f, "disconnect") && Ended(h) then Exit(0)
      else if up then Continue else Exit(1)
    case ChildFrame(f) => if f.json.None? then Exit(1) else Continue
    case PipelineDone(r, _, up, up2) =>
      if Cancelling(h).Some? then Exit(0)
      else if r.Error? || !up || (!mock && !up2) then Exit(1)
      else Continue
    case SinkLine(_, _) => Continue
    case _ => Exit(0)
  }

  /** Whether `e` can come after `h` at all. */
  ghost predicate Possible(mock: bool, h: seq<Event>, e: Event) {
    match e
    case PipelineDone(r, _, _, _) => Builds(h) && (r.Launched? ==> r.app.mock == mock)
    case Deadline => Awaited(h).Some?
    case SinkLine(_, _) => Builds(h) || AttachedBy(mock, h)
    case _ => true
  }

  ghost predicate PossibleRun(mock: bool, es: seq<Event>) {
    es == [] ||
    var before, e := es[..|es| - 1], es[|es| - 1];
    PossibleRun(mock, before) && Possible(mock, before, e)
    && (before != [] ==> Verdict(mock, before[..|before| - 1], before[|before| - 1]) == Continue)
  }

  ghost function Spoken(mock: bool, es: seq<Event>): seq<Out> {
    if es == [] then []
    else Spoken(mock, es[..|es| - 1]) + Speaks(mock, es[..|es| - 1], es[|es| - 1])
  }

  ghost function Demanded(mock: bool, init: Frame, es: seq<Event>): seq<Out> {
    if es == [] then [Raw(init)]
    else Demanded(mock, init, es[..|es| - 1]) + Demands(mock, es[..|es| - 1], es[|es| - 1])
  }

  // -- the state at a loop head -----------------------------------------------

  /** Every field, but for the two channels, is what the history says. */
  ghost predicate Remembers(s: State, mock: bool, h: seq<Event>) {
    && s.mock == mock
    && s.launchSeq == FirstLaunch(h)
    && s.attachSeq == (if ResultIn(h) then Some(AttachNumber(mock)) else None)
    && s.nextSeq == (if ResultIn(h) then AttachNumber(mock) + 1 else 1_000_000)
    && (s.pipelineRunning <==> Builds(h))
    && s.pendingDisconnect == Cancelling(h)
    && s.disconnectWait == Awaited(h)
    && s.session == ProxyFate.Delivered(h)
    && (s.attached <==> AttachedBy(mock, h))
    && (s.tailers <==> AttachedBy(mock, h))
    && (s.oslog <==> AttachedBy(mock, h) && s.session.Some? && s.session.value.oslog && s.session.value.name != "")
    && s.pidfileUdid == ClaimedBy(h)
    && (s.sessionEnded <==> Ended(h))
    && (s.debuggeeExited <==> ExitedFirst(h))
    && s.effects == Done(h)
  }

  // -- one more event ---------------------------------------------------------

  lemma Last<T>(h: seq<T>, e: T)
    ensures (h + [e])[..|h|] == h && (h + [e])[|h|] == e && |h + [e]| == |h| + 1 && h + [e] != []
  {}

  lemma SeenMore(h: seq<Event>, e: Event)
    ensures LaunchIn(h + [e]) <==> LaunchIn(h) || (e.ClientFrame? && IsRequest(e.frame, "launch"))
    ensures ResultIn(h + [e]) <==> ResultIn(h) || e.PipelineDone?
    ensures Ended(h + [e]) <==> Ended(h) || EndsSession(e)
  {
    hide IsRequest, EndsSession;
    var all := h + [e];
    assert all[|h|] == e && forall k :: 0 <= k < |h| ==> all[k] == h[k];
  }

  lemma ExitedMore(h: seq<Event>, e: Event)
    ensures ExitedFirst(h + [e]) <==> ExitedFirst(h) || (!Ended(h) && e.ChildFrame? && IsEvent(e.frame, "exited"))
  {
    assert EndsSession(e) <== e.ChildFrame? && IsEvent(e.frame, "exited");
    hide IsEvent, EndsSession;
    var all := h + [e];
    assert all[|h|] == e && forall k :: 0 <= k < |h| ==> all[k] == h[k];
    if ExitedFirst(all) {
      var i :| 0 <= i < |all| && all[i].ChildFrame? && IsEvent(all[i].frame, "exited")
               && forall j :: 0 <= j < i ==> !EndsSession(all[j]);
      if i < |h| {
        assert h[i] == all[i] && forall j :: 0 <= j < i ==> h[j] == all[j];
      } else {
        assert forall j :: 0 <= j < |h| ==> all[j] == h[j];
      }
    }
    if ExitedFirst(h) {
      var i :| 0 <= i < |h| && h[i].ChildFrame? && IsEvent(h[i].frame, "exited")
               && forall j :: 0 <= j < i ==> !EndsSession(h[j]);
      assert all[i] == h[i];
    }
  }

  lemma AttachedMore(mock: bool, h: seq<Event>, e: Event)
    ensures AttachedBy(mock, h + [e]) <==> AttachedBy(mock, h) || (ResultIn(h) && AttachSucceeds(mock, e))
  {
    hide AttachSucceeds;
    var all := h + [e];
    assert all[|h|] == e && forall k :: 0 <= k < |h| ==> all[k] == h[k];
    if ResultIn(h) && AttachSucceeds(mock, e) {
      var j :| 0 <= j < |h| && h[j].PipelineDone?;
      assert all[j].PipelineDone? && AttachSucceeds(mock, all[|h|]);
    }
    if AttachedBy(mock, h) {
      var j, i :| 0 <= j < i < |h| && h[j].PipelineDone? && AttachSucceeds(mock, h[i]);
      assert all[j].PipelineDone? && AttachSucceeds(mock, all[i]);
    }
  }

  /** All that a history says, one event on. */
  lemma HistoryMore(mock: bool, h: seq<Event>, e: Event)
    ensures var t := h + [e];
            FirstLaunch(t) == (if FirstLaunch(h).Some? then FirstLaunch(h)
                               else if e.ClientFrame? && IsRequest(e.frame, "launch") then Some(Number(e.frame)) else None)
            && Cancelling(t) == (if Disconnects(e) && Builds(h) then Some(Number(e.frame)) else Cancelling(h))
            && Awaited(t) == (if Disconnects(e) && !Builds(h) then Some(Number(e.frame)) else Awaited(h))
            && ProxyFate.Delivered(t) == (if e.PipelineDone? && e.result.Launched? then Some(e.result.app)
                                          else ProxyFate.Delivered(h))
            && ClaimedBy(t) == (if e.PipelineDone? && e.result.Launched? && e.claimed && Cancelling(h).None?
                                then Some(e.result.app.udid) else ClaimedBy(h))
            && Done(t) == Done(h)
                          + if Disconnects(e) && Builds(h) then [CancelPipeline]
                            else if e.PipelineDone? && e.result.Launched? then
                              if Cancelling(h).Some? then [Ends(e.result.app)]
                              else if e.claimed then [Claim(e.result.app.udid)] else []
                            else []
  {
    hide Builds, IsRequest, Number, Ends;
    Last(h, e);
  }

  // -- frames meet the handlers -----------------------------------------------

  lemma ClientMeets(s: State, f: Frame, up: bool)
    ensures OnClient(s, f, up)
         == if f.json.None? then (s, Exit(1))
            else if IsRequest(f, "launch") then HandleLaunch(s, Number(f), f.json.value.config)
            else if IsRequest(f, "disconnect") then OnDisconnect(s, Number(f), f, up)
            else Forward(s, f, up)
  {
    hide HandleLaunch, OnDisconnect, Forward;
  }

  lemma ChildMeets(s: State, f: Frame)
    ensures OnChild(s, f)
         == if f.json.None? then (s, Exit(1))
            else if IsInternal(f) then
              (if s.attachSeq.Some? && AnswersNumber(f, s.attachSeq.value) then AnswerLaunch(s, f.json.value) else s, Continue)
            else
              (PassToClient(if s.sessionEnded || !EndsSession(ChildFrame(f)) then s
                            else s.(sessionEnded := true, debuggeeExited := IsEvent(f, "exited")), f), Continue)
  {
    hide AnswerLaunch, PassToClient;
  }

  // -- one more event remembered ----------------------------------------------

  /** The state as the history has it, and the phase with it. */
  ghost predicate At(s: State, mock: bool, h: seq<Event>) {
    && ProxyRuns.Lifecycle(s) && Remembers(s, mock, h)
    && (s.launchSeq.Some? <==> LaunchIn(h)) && (s.session.Some? <==> ResultIn(h))
  }

  lemma AtStart(mock: bool, init: Frame)
    ensures At(Start(mock, init), mock, [])
  {}

  /** What an event that is no launch, no disconnect, no result and no word of the child leaves as it was. */
  ghost predicate SaysNothingNew(mock: bool, h: seq<Event>, e: Event) {
    !(e.ClientFrame? && IsRequest(e.frame, "launch")) && !Disconnects(e) && !e.PipelineDone? && !EndsSession(e)
    && !(ResultIn(h) && AttachSucceeds(mock, e))
  }

  lemma NothingNew(s: State, t: State, mock: bool, h: seq<Event>, e: Event)
    requires At(s, mock, h) && SaysNothingNew(mock, h, e) && t == s.(toClient := t.toClient, toChild := t.toChild)
    ensures At(t, mock, h + [e])
  {
    SeenMore(h, e);
    ExitedMore(h, e);
    AttachedMore(mock, h, e);
    HistoryMore(mock, h, e);
    assert ProxyRuns.Lifecycle(t);
    hide IsRequest, IsEvent, AttachSucceeds, ProxyRuns.Lifecycle, LaunchIn, ResultIn, Ended, ExitedFirst, AttachedBy,
         FirstLaunch, Cancelling, Awaited, ClaimedBy, Done, ProxyFate.Delivered, Ends;
  }

  lemma LaunchAt(s: State, mock: bool, h: seq<Event>, f: Frame, up: bool)
    requires At(s, mock, h) && IsRequest(f, "launch")
    requires HandleLaunch(s, Number(f), f.json.value.config).1 == Continue
    ensures At(HandleLaunch(s, Number(f), f.json.value.config).0, mock, h + [ClientFrame(f, up)])
  {
    var e := ClientFrame(f, up);
    SeenMore(h, e);
    ExitedMore(h, e);
    AttachedMore(mock, h, e);
    HistoryMore(mock, h, e);
    ProxyRuns.LifecycleLaunch(s, Number(f), f.json.value.config);
    hide IsEvent, Number, LaunchIn, ResultIn, Ended, ExitedFirst, AttachedBy, FirstLaunch, Cancelling, Awaited, ClaimedBy,
         Done, ProxyFate.Delivered, Ends, ProxyRuns.OnlyPrepared;
  }

  lemma DisconnectAt(s: State, mock: bool, h: seq<Event>, f: Frame, up: bool)
    requires At(s, mock, h) && IsRequest(f, "disconnect") && OnDisconnect(s, Number(f), f, up).1 == Continue
    ensures At(OnDisconnect(s, Number(f), f, up).0, mock, h + [ClientFrame(f, up)])
  {
    var e := ClientFrame(f, up);
    SeenMore(h, e);
    ExitedMore(h, e);
    AttachedMore(mock, h, e);
    HistoryMore(mock, h, e);
    ProxyRuns.LifecycleDisconnect(s, Number(f), f, up);
    hide IsEvent, Number, LaunchIn, ResultIn, Ended, ExitedFirst, AttachedBy, FirstLaunch, Cancelling, Awaited, ClaimedBy,
         Done, ProxyFate.Delivered, Ends, ProxyRuns.OnlyPrepared;
  }

  lemma ForwardAt(s: State, mock: bool, h: seq<Event>, f: Frame, up: bool)
    requires At(s, mock, h) && f.json.Some? && !IsRequest(f, "launch") && !IsRequest(f, "disconnect") && up
    ensures At(Forward(s, f, up).0, mock, h + [ClientFrame(f, up)])
  {
    NothingNew(s, Forward(s, f, up).0, mock, h, ClientFrame(f, up));
    hide At, IsRequest;
  }

  lemma ClientAt(s: State, mock: bool, h: seq<Event>, f: Frame, up: bool)
    requires At(s, mock, h) && OnClient(s, f, up).1 == Continue
    ensures At(OnClient(s, f, up).0, mock, h + [ClientFrame(f, up)])
  {
    ClientMeets(s, f, up);
    hide OnClient, HandleLaunch, OnDisconnect, At, IsRequest, Number;
    if IsRequest(f, "launch") {
      LaunchAt(s, mock, h, f, up);
    } else if IsRequest(f, "disconnect") {
      DisconnectAt(s, mock, h, f, up);
    } else {
      ForwardAt(s, mock, h, f, up);
    }
  }

  lemma AnswerAt(s: State, mock: bool, h: seq<Event>, f: Frame)
    requires At(s, mock, h) && ResultIn(h) && AnswersNumber(f, AttachNumber(mock))
    ensures At(AnswerLaunch(s, f.json.value), mock, h + [ChildFrame(f)])
  {
    var e := ChildFrame(f);
    SeenMore(h, e);
    ExitedMore(h, e);
    AttachedMore(mock, h, e);
    HistoryMore(mock, h, e);
    ProxyRuns.LifecycleAttached(s, f.json.value);
    assert !EndsSession(e) && !Disconnects(e);
    AnswerSets(s, f.json.value);
    hide IsEvent, Number, LaunchIn, ResultIn, Ended, ExitedFirst, AttachedBy, FirstLaunch, Cancelling, Awaited, ClaimedBy,
         Done, ProxyFate.Delivered, Ends, ProxyRuns.Lifecycle, AnswerLaunch;
  }

  /** An answered attach: success attaches and starts the tailers, nothing else changes but what is said. */
  lemma AnswerSets(s: State, v: Body)
    ensures var t := AnswerLaunch(s, v);
            var yes := v.success == Some(true);
            var starts := yes && !s.tailers && s.session.Some?;
            t == s.(toClient := t.toClient, attached := s.attached || yes, tailers := s.tailers || starts,
                    oslog := if starts then s.session.value.oslog && s.session.value.name != "" else s.oslog)
  {}

  lemma ChildAt(s: State, mock: bool, h: seq<Event>, f: Frame)
    requires At(s, mock, h) && OnChild(s, f).1 == Continue
    ensures At(OnChild(s, f).0, mock, h + [ChildFrame(f)])
  {
    var e := ChildFrame(f);
    ChildMeets(s, f);
    hide OnChild, AnswerLaunch;
    if IsInternal(f) && s.attachSeq.Some? && AnswersNumber(f, s.attachSeq.value) {
      AnswerAt(s, mock, h, f);
    } else if !EndsSession(e) {
      NothingNew(s, OnChild(s, f).0, mock, h, e);
      hide At;
    } else {
      EndingAt(s, mock, h, f);
    }
  }

  lemma EndingAt(s: State, mock: bool, h: seq<Event>, f: Frame)
    requires At(s, mock, h) && EndsSession(ChildFrame(f))
    ensures var t := if s.sessionEnded then s else s.(sessionEnded := true, debuggeeExited := IsEvent(f, "exited"));
            At(PassToClient(t, f), mock, h + [ChildFrame(f)])
  {
    var e := ChildFrame(f);
    SeenMore(h, e);
    ExitedMore(h, e);
    AttachedMore(mock, h, e);
    HistoryMore(mock, h, e);
    assert !AttachSucceeds(mock, e) && !Disconnects(e);
    hide Number, LaunchIn, ResultIn, Ended, ExitedFirst, AttachedBy, FirstLaunch, Cancelling, Awaited, ClaimedBy,
         Done, ProxyFate.Delivered, Ends, ProxyRuns.OnlyPrepared, IsEvent, IsRequest, AttachSucceeds, Disconnects;
  }

  /** A result after which the loop goes on has been claimed or not, asked to attach, and become the session. */
  lemma ResultSets(s: State, r: PipelineResult, claimed: bool, up: bool, up2: bool)
    ensures var (t, a) := OnPipelineDone(s, r, claimed, up, up2);
            (a == Continue <==> s.pendingDisconnect.None? && r.Launched? && up && (s.mock || up2))
            && (a == Continue ==>
                  t == s.(toChild := t.toChild, pipelineRunning := false, session := Some(r.app),
                          attachSeq := Some(if s.mock then s.nextSeq else s.nextSeq + 1),
                          nextSeq := if s.mock then s.nextSeq + 1 else s.nextSeq + 2,
                          pidfileUdid := if claimed then Some(r.app.udid) else s.pidfileUdid,
                          effects := s.effects + if claimed then [Claim(r.app.udid)] else []))
  {
    hide WindDown, FailLaunch;
  }

  lemma ResultAt(s: State, mock: bool, h: seq<Event>, e: Event)
    requires At(s, mock, h) && e.PipelineDone? && Enabled(s, e) && Step(s, e).1 == Continue
    ensures At(Step(s, e).0, mock, h + [e])
  {
    SeenMore(h, e);
    ExitedMore(h, e);
    AttachedMore(mock, h, e);
    HistoryMore(mock, h, e);
    ResultSets(s, e.result, e.claimed, e.up, e.up2);
    ProxyRuns.LifecycleStep(s, e);
    NoneAttachedYet(mock, h);
    hide OnPipelineDone, IsEvent, Number, LaunchIn, ResultIn, Ended, ExitedFirst, AttachedBy, FirstLaunch, Cancelling,
         Awaited, ClaimedBy, Done, ProxyFate.Delivered, Ends, ProxyRuns.OnlyPrepared;
  }

  lemma NoneAttachedYet(mock: bool, h: seq<Event>)
    ensures !ResultIn(h) ==> !AttachedBy(mock, h)
  {}

  lemma StepAt(s: State, mock: bool, h: seq<Event>, e: Event)
    requires At(s, mock, h) && Enabled(s, e) && Step(s, e).1 == Continue
    ensures At(Step(s, e).0, mock, h + [e])
  {
    hide At, OnClient, OnChild, OnPipelineDone;
    match e {
      case ClientFrame(f, up) => ClientAt(s, mock, h, f, up);
      case ChildFrame(f) => ChildAt(s, mock, h, f);
      case PipelineDone(_, _, _, _) => ResultAt(s, mock, h, e);
      case SinkLine(_, _) => NothingNew(s, Step(s, e).0, mock, h, e);
      case _ =>
    }
  }

  /** At every loop head the state is what the history says. */
  lemma {:induction false} StateIsHistory(mock: bool, init: Frame, es: seq<Event>)
    requires Legal(Start(mock, init), es) && Exec(Start(mock, init), es).1 == Continue
    ensures At(Exec(Start(mock, init), es).0, mock, es)
  {
    if es == [] {
      AtStart(mock, init);
    } else {
      hide At, Step, Start, Enabled;
      var before, e := es[..|es| - 1], es[|es| - 1];
      StateIsHistory(mock, init, before);
      StepAt(Exec(Start(mock, init), before).0, mock, before, e);
      assert es == before + [e];
    }
  }

  // -- what is said, asked and decided ----------------------------------------

  lemma SpeaksAt(s: State, mock: bool, h: seq<Event>, e: Event)
    requires At(s, mock, h) && Enabled(s, e)
    ensures Step(s, e).0.toClient == s.toClient + Speaks(mock, h, e)
    ensures Step(s, e).0.toChild == s.toChild + Demands(mock, h, e)
  {
    ProxyTraffic.StepSends(s, e);
    SaysSpelledOut(s, mock, h, e);
    hide Step, ProxyTraffic.Says, ProxyTraffic.Requests, Speaks, Demands, At, Enabled;
  }

  lemma SaysSpelledOut(s: State, mock: bool, h: seq<Event>, e: Event)
    requires At(s, mock, h) && Enabled(s, e)
    ensures ProxyTraffic.Says(s, e) == Speaks(mock, h, e)
    ensures ProxyTraffic.Requests(s, e) == Demands(mock, h, e)
  {
    hide LaunchIn, ResultIn, Ended, ExitedFirst, AttachedBy, FirstLaunch, Cancelling, Awaited, ClaimedBy, Done,
         ProxyFate.Delivered, ProxyRuns.OnlyPrepared;
  }

  lemma VerdictAt(s: State, mock: bool, h: seq<Event>, e: Event)
    requires At(s, mock, h) && Enabled(s, e)
    ensures Step(s, e).1 == Verdict(mock, h, e)
  {
    match e {
      case ClientFrame(f, up) =>
        ClientMeets(s, f, up);
        hide OnClient, FailLaunch;
      case ChildFrame(f) =>
        ChildMeets(s, f);
        hide OnChild, AnswerLaunch, PassToClient;
      case PipelineDone(r, claimed, up, up2) =>
        ResultEnds(s, r, claimed, up, up2);
        hide OnPipelineDone;
      case _ =>
    }
    hide IsRequest, LaunchIn, ResultIn, Ended, ExitedFirst, AttachedBy, FirstLaunch, Cancelling, Awaited, ClaimedBy, Done,
         ProxyFate.Delivered, ProxyRuns.OnlyPrepared;
  }

  lemma ResultEnds(s: State, r: PipelineResult, claimed: bool, up: bool, up2: bool)
    ensures OnPipelineDone(s, r, claimed, up, up2).1
         == if s.pendingDisconnect.Some? then Exit(0)
            else if r.Error? || !up || (!s.mock && !up2) then Exit(1)
            else Continue
  {
    hide WindDown, FailLaunch;
  }

  lemma PossibleAt(s: State, mock: bool, h: seq<Event>, e: Event)
    requires At(s, mock, h)
    ensures Enabled(s, e) <==> Possible(mock, h, e)
  {
    hide LaunchIn, ResultIn, Ended, ExitedFirst, AttachedBy, FirstLaunch, Cancelling, Awaited, ClaimedBy, Done,
         ProxyFate.Delivered, ProxyRuns.Lifecycle;
  }

  /** The runs of the loop are the possible histories. */
  lemma {:induction false} LegalIsPossible(mock: bool, init: Frame, es: seq<Event>)
    ensures Legal(Start(mock, init), es) <==> PossibleRun(mock, es)
    ensures Legal(Start(mock, init), es) && es != [] ==>
              Exec(Start(mock, init), es).1 == Verdict(mock, es[..|es| - 1], es[|es| - 1])
  {
    if es != [] {
      hide At, Step, Start, Enabled, Verdict, Possible;
      var s0, before, e := Start(mock, init), es[..|es| - 1], es[|es| - 1];
      LegalIsPossible(mock, init, before);
      if Legal(s0, before) && Exec(s0, before).1 == Continue {
        StateIsHistory(mock, init, before);
        var s := Exec(s0, before).0;
        PossibleAt(s, mock, before, e);
        if Enabled(s, e) {
          VerdictAt(s, mock, before, e);
        }
      }
    }
  }

  /** Over every run the client has heard, and lldb-dap has been asked, exactly what the history demands. */
  lemma {:induction false} TrafficIsHistory(mock: bool, init: Frame, es: seq<Event>)
    requires Legal(Start(mock, init), es)
    ensures Exec(Start(mock, init), es).0.toClient == Spoken(mock, es)
    ensures Exec(Start(mock, init), es).0.toChild == Demanded(mock, init, es)
  {
    if es != [] {
      hide At, Step, Enabled, Speaks, Demands;
      var before, e := es[..|es| - 1], es[|es| - 1];
      TrafficIsHistory(mock, init, before);
      StateIsHistory(mock, init, before);
      SpeaksAt(Exec(Start(mock, init), before).0, mock, before, e);
    }
  }

  // -- the end of a run -------------------------------------------------------

  /** The app that the teardown finds: the one that came late, or the session's unless the result ended the loop. */
  ghost function LeftOver(h: seq<Event>, e: Event, drained: Option<PipelineResult>): Option<App> {
    if e.PipelineDone? then None
    else if Builds(h) then
      if drained.Some? && drained.value.Launched? then Some(drained.value.app) else None
    else ProxyFate.Delivered(h)
  }

  /** What stopping an app adds, by the flags. */
  function Stopping(app: Option<App>, lost: bool, exited: bool, attached: bool): seq<Effect> {
    if app.None? then []
    else if app.value.mock then [KillMock(app.value)]
    else if lost || exited || (attached && !app.value.terminateOnStop) then []
    else [Terminate(app.value)]
  }

  /** Everything done outside the channels by a run that ended, its teardown included. */
  ghost function Everything(mock: bool, es: seq<Event>, drained: Option<PipelineResult>, stillOurs: bool): seq<Effect>
    requires es != []
  {
    var h, e := es[..|es| - 1], es[|es| - 1];
    var app := LeftOver(h, e, drained);
    Done(es)
    + (if Builds(h) && !e.PipelineDone? then [CancelPipeline] else [])
    + Stopping(app, ClaimedBy(es).Some? && !stillOurs, ExitedFirst(es), AttachedBy(mock, es))
    + if ClaimedBy(es).Some? then [Release(ClaimedBy(es).value)] else []
  }

  /** The fields that the teardown looks at, after the event that ended the loop. */
  ghost predicate EndsAs(t: State, mock: bool, h: seq<Event>, e: Event) {
    && t.session == (if e.PipelineDone? then None else ProxyFate.Delivered(h))
    && (t.pipelineRunning <==> Builds(h) && !e.PipelineDone?)
    && t.pidfileUdid == ClaimedBy(h + [e])
    && (t.attached <==> AttachedBy(mock, h + [e]))
    && (t.debuggeeExited <==> ExitedFirst(h + [e]))
    && (t.sessionEnded <==> Ended(h + [e]) || (e.Signal? && ResultIn(h)))
    && (t.tailers <==> AttachedBy(mock, h))
    && t.effects == Done(h + [e])
  }

  lemma QuietEnd(s: State, t: State, mock: bool, h: seq<Event>, e: Event)
    requires At(s, mock, h) && !e.PipelineDone? && !EndsSession(e) && !(ResultIn(h) && AttachSucceeds(mock, e))
    requires !(Disconnects(e) && Builds(h))
    requires t == s.(toClient := t.toClient, toChild := t.toChild, disconnectWait := t.disconnectWait,
                     sessionEnded := t.sessionEnded, launchSeq := t.launchSeq)
    requires t.sessionEnded <==> s.sessionEnded || (e.Signal? && ResultIn(h))
    ensures EndsAs(t, mock, h, e)
  {
    SeenMore(h, e);
    ExitedMore(h, e);
    AttachedMore(mock, h, e);
    HistoryMore(mock, h, e);
    hide IsRequest, IsEvent, AttachSucceeds, ProxyRuns.Lifecycle, LaunchIn, ResultIn, Ended, ExitedFirst, AttachedBy,
         FirstLaunch, Cancelling, Awaited, ClaimedBy, Done, ProxyFate.Delivered, Ends;
  }

  lemma ClientEnds(s: State, mock: bool, h: seq<Event>, f: Frame, up: bool)
    requires At(s, mock, h) && OnClient(s, f, up).1 != Continue
    ensures EndsAs(OnClient(s, f, up).0, mock, h, ClientFrame(f, up))
  {
    ClientMeets(s, f, up);
    var t := OnClient(s, f, up).0;
    hide OnClient;
    assert t == s.(toClient := t.toClient, toChild := t.toChild, disconnectWait := t.disconnectWait,
                   sessionEnded := t.sessionEnded, launchSeq := t.launchSeq);
    assert !(Disconnects(ClientFrame(f, up)) && Builds(h)) && t.sessionEnded == s.sessionEnded;
    hide HandleLaunch, OnDisconnect, Forward, At, EndsAs;
    QuietEnd(s, t, mock, h, ClientFrame(f, up));
  }

  /** A result that ends the loop: undone after a cancel, claimed and dropped when lldb-dap is out of reach. */
  lemma ResultDrops(s: State, r: PipelineResult, claimed: bool, up: bool, up2: bool)
    requires OnPipelineDone(s, r, claimed, up, up2).1 != Continue
    ensures var t := OnPipelineDone(s, r, claimed, up, up2).0;
            var claims := s.pendingDisconnect.None? && r.Launched? && claimed;
            t == s.(toClient := t.toClient, toChild := t.toChild, pipelineRunning := false, pendingDisconnect := None,
                    attachSeq := t.attachSeq, nextSeq := t.nextSeq,
                    pidfileUdid := if claims then Some(r.app.udid) else s.pidfileUdid,
                    effects := s.effects
                               + if r.Launched? then
                                   if s.pendingDisconnect.Some? then [Ends(r.app)]
                                   else if claimed then [Claim(r.app.udid)] else []
                                 else [])
  {
    var t := s.(pipelineRunning := false);
    hide WindDown, FailLaunch, BeginAttach, ClaimSimulator;
    hide Ends;
    assert s.effects + [] == s.effects;
    if s.pendingDisconnect.Some? {
      WindsDown(t, s.pendingDisconnect.value, r);
    } else if r.Error? {
      Fails(t, r.message);
    } else {
      ClaimSets(t, r.app, claimed);
      Drops(ClaimSimulator(t, r.app, claimed), r.app, up, up2);
    }
  }

  lemma WindsDown(s: State, q: int, r: PipelineResult)
    ensures var t := WindDown(s, q, r);
            t == s.(toClient := t.toClient, pendingDisconnect := None,
                    effects := s.effects + if r.Launched? then [Ends(r.app)] else [])
  {
    assert s.effects + [] == s.effects;
  }

  lemma Fails(s: State, message: string)
    ensures var t := FailLaunch(s, message); t == s.(toClient := t.toClient)
  {}

  lemma ClaimSets(s: State, app: App, claimed: bool)
    ensures ClaimSimulator(s, app, claimed)
         == s.(pidfileUdid := if claimed then Some(app.udid) else s.pidfileUdid,
               effects := s.effects + if claimed then [Claim(app.udid)] else [])
  {
    assert s.effects + [] == s.effects;
  }

  lemma Drops(s: State, app: App, up: bool, up2: bool)
    requires BeginAttach(s, app, up, up2).1 != Continue
    ensures var t := BeginAttach(s, app, up, up2).0;
            t == s.(toChild := t.toChild, attachSeq := t.attachSeq, nextSeq := t.nextSeq)
  {}

  lemma ResultEnd(s: State, mock: bool, h: seq<Event>, e: Event)
    requires At(s, mock, h) && e.PipelineDone? && Enabled(s, e) && Step(s, e).1 != Continue
    ensures EndsAs(Step(s, e).0, mock, h, e)
  {
    SeenMore(h, e);
    ExitedMore(h, e);
    AttachedMore(mock, h, e);
    HistoryMore(mock, h, e);
    ResultDrops(s, e.result, e.claimed, e.up, e.up2);
    hide OnPipelineDone, IsEvent, Number, LaunchIn, ResultIn, Ended, ExitedFirst, AttachedBy, FirstLaunch, Cancelling,
         Awaited, ClaimedBy, Done, ProxyFate.Delivered, Ends, ProxyRuns.OnlyPrepared;
  }

  lemma EndAt(s: State, mock: bool, h: seq<Event>, e: Event)
    requires At(s, mock, h) && Enabled(s, e) && Step(s, e).1 != Continue
    ensures EndsAs(Step(s, e).0, mock, h, e)
  {
    match e {
      case ClientFrame(f, up) =>
        hide OnClient, At, EndsAs;
        ClientEnds(s, mock, h, f, up);
      case PipelineDone(_, _, _, _) =>
        ResultEnd(s, mock, h, e);
        hide Step, At, EndsAs, Enabled;
      case ChildFrame(f) =>
        ChildMeets(s, f);
        hide OnChild, At, EndsAs, AnswerLaunch;
        QuietEnd(s, Step(s, e).0, mock, h, e);
      case SinkLine(_, _) =>
      case _ =>
        hide At, EndsAs;
        QuietEnd(s, Step(s, e).0, mock, h, e);
    }
  }

  lemma {:induction false} UndeliveredYet(h: seq<Event>)
    ensures !ResultIn(h) ==> ProxyFate.Delivered(h).None?
  {
    if h != [] {
      var before := h[..|h| - 1];
      UndeliveredYet(before);
      assert ResultIn(before) ==> ResultIn(h) by {
        if ResultIn(before) {
          var k :| 0 <= k < |before| && before[k].PipelineDone?;
          assert h[k].PipelineDone?;
        }
      }
      if h[|h| - 1].PipelineDone? {
        assert ResultIn(h);
      }
    }
  }

  /** The teardown by its parts: wind the pipeline down, stop the app that is left, give the pidfile up. */
  lemma TeardownParts(t: State, drained: Option<PipelineResult>, stillOurs: bool)
    ensures var u := DrainPipeline(t, drained).(tailers := false, oslog := false);
            Teardown(t, drained, stillOurs).effects
            == t.effects + (if t.pipelineRunning then [CancelPipeline] else [])
               + ProxyFate.StopEffects(u, stillOurs) + ProxyFate.ReleaseEffects(u)
  {
    var u := DrainPipeline(t, drained).(tailers := false, oslog := false);
    ProxyFate.DrainEffects(t, drained);
    ProxyFate.StopEffectsOf(u, stillOurs);
    ProxyFate.StopKeepsClaim(u, stillOurs);
    ProxyFate.ReleaseEffectsOf(StopApp(u, stillOurs));
    hide StopApp, ReleasePidfile, DrainPipeline, ProxyFate.StopEffects;
  }

  lemma StopsBy(t: State, drained: Option<PipelineResult>, stillOurs: bool)
    ensures var u := DrainPipeline(t, drained).(tailers := false, oslog := false);
            ProxyFate.StopEffects(u, stillOurs)
            == Stopping(if t.pipelineRunning && drained.Some? && drained.value.Launched? then Some(drained.value.app)
                        else t.session,
                        t.pidfileUdid.Some? && !stillOurs, t.debuggeeExited, t.attached)
            && ProxyFate.ReleaseEffects(u) == if t.pidfileUdid.Some? then [Release(t.pidfileUdid.value)] else []
  {}

  /** What the teardown does, by the fields it looks at. */
  lemma TeardownDoes(t: State, mock: bool, h: seq<Event>, e: Event, drained: Option<PipelineResult>, stillOurs: bool)
    requires EndsAs(t, mock, h, e)
    ensures Teardown(t, drained, stillOurs).effects == Everything(mock, h + [e], drained, stillOurs)
  {
    Last(h, e);
    UndeliveredYet(h);
    TeardownParts(t, drained, stillOurs);
    StopsBy(t, drained, stillOurs);
    hide Teardown, DrainPipeline, ProxyFate.StopEffects, ProxyFate.ReleaseEffects, LaunchIn, ResultIn, ExitedFirst,
         AttachedBy, ClaimedBy, Done, ProxyFate.Delivered;
  }

  /** The state in which the loop ended, by the history. */
  lemma EndIsHistory(mock: bool, init: Frame, es: seq<Event>)
    requires Legal(Start(mock, init), es) && Exec(Start(mock, init), es).1 != Continue
    ensures es != [] && EndsAs(Exec(Start(mock, init), es).0, mock, es[..|es| - 1], es[|es| - 1])
    ensures ProxyRuns.OnlyPrepared(Done(es[..|es| - 1]))
    ensures es[..|es| - 1] + [es[|es| - 1]] == es
  {
    assert es != [];
    Rejoined(es);
    LastTurn(Start(mock, init), es);
    hide Exec, Legal, Step, Start, Enabled, EndsAs, At, ProxyRuns.OnlyPrepared;
    var before, e := es[..|es| - 1], es[|es| - 1];
    StateIsHistory(mock, init, before);
    AtPrepared(Exec(Start(mock, init), before).0, mock, before);
    EndAt(Exec(Start(mock, init), before).0, mock, before, e);
  }

  lemma Rejoined<T>(s: seq<T>)
    requires s != []
    ensures s[..|s| - 1] + [s[|s| - 1]] == s
  {}

  lemma LastTurn(s0: State, es: seq<Event>)
    requires Legal(s0, es) && es != []
    ensures var before, e := es[..|es| - 1], es[|es| - 1];
            Legal(s0, before) && Exec(s0, before).1 == Continue && Enabled(Exec(s0, before).0, e)
            && Exec(s0, es) == Step(Exec(s0, before).0, e)
  {
    hide Step, Enabled;
  }

  lemma AtPrepared(s: State, mock: bool, h: seq<Event>)
    requires At(s, mock, h)
    ensures ProxyRuns.OnlyPrepared(Done(h))
  {}

  /** Over every run that ended, with its teardown: everything that was done outside the channels, in order. */
  lemma EffectsAreHistory(mock: bool, init: Frame, es: seq<Event>, drained: Option<PipelineResult>, stillOurs: bool)
    requires Legal(Start(mock, init), es) && Exec(Start(mock, init), es).1 != Continue
    ensures es != []
    ensures Teardown(Exec(Start(mock, init), es).0, drained, stillOurs).effects == Everything(mock, es, drained, stillOurs)
  {
    EndIsHistory(mock, init, es);
    var before, e := es[..|es| - 1], es[|es| - 1];
    hide Exec, Start, EndsAs, Teardown, Everything, Legal;
    TeardownDoes(Exec(Start(mock, init), es).0, mock, before, e, drained, stillOurs);
  }

  /** The three flags over every run, by the frames: the debuggee counts as exited exactly when the first `exited` or
      `terminated` event is an `exited`; the session as ended when there was either, or a signal announced the end of
      one that had begun; the debugger as attached when the attach request was answered with success. */
  lemma FlagsByFrames(mock: bool, init: Frame, es: seq<Event>)
    requires Legal(Start(mock, init), es)
    ensures var s := Exec(Start(mock, init), es).0;
            (s.debuggeeExited <==> ExitedFirst(es)) && (s.attached <==> AttachedBy(mock, es))
            && (s.sessionEnded
                <==> Ended(es) || (es != [] && es[|es| - 1].Signal? && ResultIn(es[..|es| - 1])))
  {
    if Exec(Start(mock, init), es).1 == Continue {
      StateIsHistory(mock, init, es);
      NoSignalYet(Start(mock, init), es);
    } else {
      EndIsHistory(mock, init, es);
    }
    hide Start, Exec, Legal, ExitedFirst, Ended, AttachedBy, ResultIn, Done, ClaimedBy, FirstLaunch, Cancelling, Awaited,
         ProxyFate.Delivered, ProxyRuns.Lifecycle;
  }

  lemma NoSignalYet(s0: State, es: seq<Event>)
    requires Legal(s0, es) && Exec(s0, es).1 == Continue
    ensures es != [] ==> !es[|es| - 1].Signal?
  {
    hide OnClient, OnChild, OnPipelineDone, AnnounceSuperseded;
  }

  /** What became of the app the loop was given, by the frames. If its arrival ended the loop, it was ended exactly
      when a disconnect had met the build. Otherwise it was ended exactly if it is the mock app, or none of these
      holds: the simulator was claimed and is no longer ours; the first the child said of the session's end was
      `exited`; the attach was answered with success and `terminateOnStop` is off. No other app was touched. */
  lemma AppFateByFrames(mock: bool, init: Frame, es: seq<Event>, drained: Option<PipelineResult>, stillOurs: bool, app: App)
    requires Legal(Start(mock, init), es) && Exec(Start(mock, init), es).1 != Continue
    requires ProxyFate.Delivered(es) == Some(app)
    ensures es != []
    ensures var effects := Teardown(Exec(Start(mock, init), es).0, drained, stillOurs).effects;
            (Ends(app) in effects
             <==> if es[|es| - 1].PipelineDone? then Cancelling(es[..|es| - 1]).Some?
                  else app.mock || (!(ClaimedBy(es).Some? && !stillOurs) && !ExitedFirst(es)
                                    && (!AttachedBy(mock, es) || app.terminateOnStop)))
            && forall x :: Terminate(x) in effects || KillMock(x) in effects ==> x == app && Ends(x) in effects
  {
    EndIsHistory(mock, init, es);
    var h, e := es[..|es| - 1], es[|es| - 1];
    EffectsAreHistory(mock, init, es, drained, stillOurs);
    hide Start, Exec, Teardown, Legal, Everything, Builds, ProxyFate.Delivered, ProxyRuns.OnlyPrepared, EndsAs;
    DeliveredStopsBuilds(mock, init, h, e);
    if e.PipelineDone? {
      FateOnArrival(mock, h, e, drained, stillOurs, app);
    } else {
      FateAtTeardown(mock, h, e, drained, stillOurs, app);
    }
  }

  lemma FateOnArrival(mock: bool, h: seq<Event>, e: Event, drained: Option<PipelineResult>, stillOurs: bool, app: App)
    requires ProxyRuns.OnlyPrepared(Done(h)) && ProxyFate.Delivered(h).None? && e.PipelineDone?
    requires ProxyFate.Delivered(h + [e]) == Some(app)
    ensures var effects := Everything(mock, h + [e], drained, stillOurs);
            (Ends(app) in effects <==> Cancelling(h).Some?)
            && forall x :: Terminate(x) in effects || KillMock(x) in effects ==> x == app && Ends(x) in effects
  {
    Last(h, e);
    HistoryMore(mock, h, e);
    PreparedEndsNothing(Done(h));
    hide LaunchIn, ResultIn, ExitedFirst, AttachedBy, ClaimedBy, Done, Cancelling, ProxyFate.Delivered,
         ProxyRuns.OnlyPrepared, Stopping;
    var more := if Cancelling(h).Some? then [Ends(app)] else if e.claimed then [Claim(app.udid)] else [];
    var last := if ClaimedBy(h + [e]).Some? then [Release(ClaimedBy(h + [e]).value)] else [];
    assert Everything(mock, h + [e], drained, stillOurs) == Done(h) + more + last;
  }

  lemma FateAtTeardown(mock: bool, h: seq<Event>, e: Event, drained: Option<PipelineResult>, stillOurs: bool, app: App)
    requires ProxyRuns.OnlyPrepared(Done(h)) && !Builds(h) && !e.PipelineDone?
    requires ProxyFate.Delivered(h + [e]) == Some(app)
    ensures var es := h + [e];
            var effects := Everything(mock, es, drained, stillOurs);
            (Ends(app) in effects
             <==> app.mock || (!(ClaimedBy(es).Some? && !stillOurs) && !ExitedFirst(es)
                               && (!AttachedBy(mock, es) || app.terminateOnStop)))
            && forall x :: Terminate(x) in effects || KillMock(x) in effects ==> x == app && Ends(x) in effects
  {
    Last(h, e);
    HistoryMore(mock, h, e);
    PreparedEndsNothing(Done(h));
    hide LaunchIn, ResultIn, ExitedFirst, AttachedBy, ClaimedBy, Done, Cancelling, Builds, ProxyFate.Delivered,
         ProxyRuns.OnlyPrepared;
    var es := h + [e];
    var stopping := Stopping(Some(app), ClaimedBy(es).Some? && !stillOurs, ExitedFirst(es), AttachedBy(mock, es));
    var last := if ClaimedBy(es).Some? then [Release(ClaimedBy(es).value)] else [];
    assert Everything(mock, es, drained, stillOurs) == Done(h) + stopping + last;
  }

  lemma PreparedEndsNothing(effects: seq<Effect>)
    requires ProxyRuns.OnlyPrepared(effects)
    ensures forall x :: Terminate(x) !in effects && KillMock(x) !in effects
  {}

  /** Once an app was delivered nothing is being built, and a result is the first. */
  lemma DeliveredStopsBuilds(mock: bool, init: Frame, h: seq<Event>, e: Event)
    requires Legal(Start(mock, init), h + [e])
    ensures ProxyFate.Delivered(h).Some? ==> !Builds(h) && !e.PipelineDone?
    ensures ProxyFate.Delivered(h + [e]).Some? && !e.PipelineDone? ==> ProxyFate.Delivered(h).Some?
  {
    var s0 := Start(mock, init);
    assert (h + [e])[..|h|] == h;
    StateIsHistory(mock, init, h);
    PossibleAt(Exec(s0, h).0, mock, h, e);
    UndeliveredYet(h);
    hide Start, Exec, Legal, At, Enabled, LaunchIn, ResultIn, ProxyFate.Delivered;
  }

  // -- the program ------------------------------------------------------------

  /** The lines that the pipeline or the tailers emit while they stop. */
  ghost function LastLines(mock: bool, es: seq<Event>, lines: seq<(string, string)>): seq<Out>
    requires es != []
  {
    var h, e := es[..|es| - 1], es[|es| - 1];
    if (Builds(h) && !e.PipelineDone?) || AttachedBy(mock, h)
    then seq(|lines|, i requires 0 <= i < |lines| => Built(OutputEvent(lines[i].0, lines[i].1 + "\n"))) else []
  }

  /** A whole session of one proxy, from the first frame to the end of its teardown: its exit code and all it said,
      asked and did are those of the history. */
  method Session(init: Frame, mock: bool, es: seq<Event>, drained: Option<PipelineResult>,
                 lines: seq<(string, string)>, stillOurs: bool)
    returns (p: Proxy, a: Action)
    requires PossibleRun(mock, es) && es != [] && Verdict(mock, es[..|es| - 1], es[|es| - 1]) != Continue
    ensures a == Verdict(mock, es[..|es| - 1], es[|es| - 1])
    ensures p.toClient == Spoken(mock, es) + LastLines(mock, es, lines)
    ensures p.toChild == Demanded(mock, init, es)
    ensures p.effects == Everything(mock, es, drained, stillOurs)
  {
    hide Start, Legal, Exec, TeardownSaying, Teardown, PossibleRun, Verdict, Spoken, Demanded, Everything, LastLines, EndsAs;
    LegalIsPossible(mock, init, es);
    p := new Proxy(mock, init);
    a := p.Route(es);
    TrafficIsHistory(mock, init, es);
    EffectsAreHistory(mock, init, es, drained, stillOurs);
    SaysLast(mock, init, es, drained, lines, stillOurs);
    p.TearDown(drained, lines, stillOurs);
  }

  lemma SaysLast(mock: bool, init: Frame, es: seq<Event>, drained: Option<PipelineResult>, lines: seq<(string, string)>,
                 stillOurs: bool)
    requires Legal(Start(mock, init), es) && Exec(Start(mock, init), es).1 != Continue
    ensures es != []
    ensures var s := Exec(Start(mock, init), es).0;
            var t := TeardownSaying(s, drained, lines, stillOurs);
            t.toClient == s.toClient + LastLines(mock, es, lines) && t.toChild == s.toChild
            && t.effects == Teardown(s, drained, stillOurs).effects
  {
    EndIsHistory(mock, init, es);
    var s := Exec(Start(mock, init), es).0;
    ProxyFate.LinesChangeNothing(s, drained, lines, stillOurs);
    TeardownSays(s, drained, lines, stillOurs);
    assert s.toClient + [] == s.toClient;
    hide Start, Exec, Legal, Teardown, TeardownSaying, LaunchIn, ResultIn, ExitedFirst, AttachedBy, ClaimedBy, Done,
         ProxyFate.Delivered, ProxyRuns.OnlyPrepared;
  }

  lemma TeardownSays(s: State, drained: Option<PipelineResult>, lines: seq<(string, string)>, stillOurs: bool)
    ensures var t := TeardownSaying(s, drained, lines, stillOurs);
            t.toClient == (if s.pipelineRunning || s.tailers then s.toClient + Outputs(lines) else s.toClient)
            && t.toChild == s.toChild
  {
    var t := DrainPipeline(s, drained);
    var u := if s.pipelineRunning || s.tailers then t.(toClient := t.toClient + Outputs(lines)) else t;
    StopQuiet(u.(tailers := false, oslog := false), stillOurs);
    DrainQuiet(s, drained);
    hide StopApp, DrainPipeline, Outputs;
  }

  lemma StopQuiet(s: State, stillOurs: bool)
    ensures StopApp(s, stillOurs).toClient == s.toClient && StopApp(s, stillOurs).toChild == s.toChild
  {
    hide ShouldTerminate, Superseded;
  }

  lemma DrainQuiet(s: State, drained: Option<PipelineResult>)
    ensures DrainPipeline(s, drained).toClient == s.toClient && DrainPipeline(s, drained).toChild == s.toChild
  {
    hide Do;
    DoQuiet(s, CancelPipeline);
  }

  lemma DoQuiet(s: State, x: Effect)
    ensures Do(s, x).toClient == s.toClient && Do(s, x).toChild == s.toChild
  {}
}
