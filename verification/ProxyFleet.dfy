/** Several whole proxies over the shared pidfiles (dap/proxy.rs, util/pidfile.rs): each runs its own loop and
    teardown, and reads its ownership from the file the others write. */
module ProxyFleet {
  import opened Text
  import opened Peek
  import opened Pidfile
  import opened Loop = Proxy
  import ProxyRuns
  import ProxyFate
  import History = ProxyHistory
  import ProxyTraffic
  import Ownership = PidfileOwnership

  /** In the loop; out of it; the pipeline drained; the app decided about; the pidfile given up. */
  datatype Stage = Looping | Ended | Drained | Decided | Gone

  /** A proxy with the events its loop took. `member` is how the ownership of pidfiles sees it; `drained` and
      `stillOurs` are what its teardown met, at `decidedAt` in the common log. */
  datatype Node = Node(
    mock: bool,
    init: Frame,
    events: seq<Event>,
    state: State,
    stage: Stage,
    member: Ownership.Member,
    drained: Option<PipelineResult>,
    stillOurs: bool,
    decidedAt: nat)

  datatype Fleet = Fleet(files: map<string, string>, nodes: map<nat, Node>, log: seq<Ownership.Act>)

  /** A turn of one proxy's loop, the early signal its pipeline sends for as long as it runs, and the three parts of
      its teardown; `left` is what a failed claim leaves in the file. */
  datatype Move =
    | Turn(who: nat, event: Event, running: map<int, string>, left: Option<string>)
    | EarlySignal(who: nat, udid: string, running: map<int, string>)
    | Drain(who: nat, drained: Option<PipelineResult>)
    | Stop(who: nat)
    | Release(who: nat, removed: bool)

  predicate Enabled(f: Fleet, m: Move) {
    && m.who in f.nodes
    && match m
       case Turn(p, e, _, _) => f.nodes[p].stage == Looping && Loop.Enabled(f.nodes[p].state, e)
       case EarlySignal(p, _, _) => f.nodes[p].stage != Gone && f.nodes[p].state.pipelineRunning
       case Drain(p, _) => f.nodes[p].stage == Ended
       case Stop(p) => f.nodes[p].stage == Drained
       case Release(p, _) => f.nodes[p].stage == Decided
  }

  /** The simulator that a turn tries to claim. */
  function Claims(s: State, e: Event): Option<string> {
    if e.PipelineDone? && e.result.Launched? && s.pendingDisconnect.None? then Some(e.result.app.udid) else None
  }

  /** Whether the pidfile still names us; without a claim there is nothing to read. */
  predicate OwnsFile(f: Fleet, p: nat, s: State) {
    s.pidfileUdid.Some? ==> StillOurs(FileAt(f, s.pidfileUdid.value), p)
  }

  function FileAt(f: Fleet, udid: string): Option<string> {
    if udid in f.files then Some(f.files[udid]) else None
  }

  /** What the ownership of pidfiles sees of a fleet. */
  function View(f: Fleet): Ownership.World {
    Ownership.World(f.files, map p | p in f.nodes :: f.nodes[p].member, f.log)
  }

  /** The move there that a move here amounts to, if any. */
  function Image(f: Fleet, m: Move): Option<Ownership.Move>
    requires Enabled(f, m)
  {
    var s := f.nodes[m.who].state;
    match m
    case Turn(p, e, running, left) =>
      if Claims(s, e).Some? then Some(Ownership.ClaimSim(p, Claims(s, e).value, running, e.claimed, left)) else None
    case EarlySignal(p, udid, running) => Some(Ownership.KillOld(p, udid, running))
    case Drain(_, _) => None
    case Stop(p) =>
      if s.session.Some? && !s.session.value.mock
      then Some(Ownership.Decide(p, s.attached, s.session.value.terminateOnStop, s.debuggeeExited)) else None
    case Release(p, removed) => Some(Ownership.Release(p, removed))
  }

  /** The proxy's own part of a move. */
  function NodeStep(f: Fleet, m: Move): Node
    requires Enabled(f, m)
  {
    var n := f.nodes[m.who];
    match m
    case Turn(_, e, _, _) =>
      var (t, a) := Loop.Step(n.state, e);
      n.(events := n.events + [e], state := t, stage := if a == Continue then Looping else Ended)
    case EarlySignal(_, _, _) => n
    case Drain(_, drained) =>
      n.(state := DrainPipeline(n.state, drained).(tailers := false, oslog := false), drained := drained, stage := Drained)
    case Stop(p) =>
      var stillOurs := OwnsFile(f, p, n.state);
      n.(state := StopApp(n.state, stillOurs), stillOurs := stillOurs, decidedAt := |f.log|, stage := Decided)
    case Release(_, _) => n.(state := ReleasePidfile(n.state), stage := Gone)
  }

  /** What the proxy did outside its channels in a move. */
  function NewEffects(f: Fleet, m: Move): seq<Effect>
    requires Enabled(f, m)
  {
    var before, after := f.nodes[m.who].state.effects, NodeStep(f, m).state.effects;
    if |before| <= |after| then after[|before|..] else []
  }

  /** The files after some effects of one proxy; `removed` says whether a removal succeeds. */
  function Touched(files: map<string, string>, who: nat, removed: bool, effects: seq<Effect>): map<string, string> {
    if effects == [] then files
    else
      var before := Touched(files, who, removed, effects[..|effects| - 1]);
      match effects[|effects| - 1]
      case Claim(udid) => before[udid := PidLine(who)]
      case Release(udid) =>
        if !removed then before
        else
          var file := AfterRemove(if udid in before then Some(before[udid]) else None, who);
          if file.Some? then before[udid := file.value] else before - {udid}
      case _ => before
  }

  /** The claims and releases among some effects of one proxy. */
  function Acts(who: nat, effects: seq<Effect>): seq<Ownership.Act> {
    if effects == [] then []
    else
      Acts(who, effects[..|effects| - 1])
      + match effects[|effects| - 1]
        case Claim(udid) => [Ownership.Claimed(who, udid)]
        case Release(udid) => [Ownership.Released(who, udid)]
        case _ => []
  }

  /** The signal sent through a pidfile before it is claimed, and early. */
  function Signals(f: Fleet, m: Move): seq<Ownership.Act>
    requires Enabled(f, m)
  {
    var (udid, running) :=
      match m
      case Turn(p, e, running, _) => (Claims(f.nodes[p].state, e), running)
      case EarlySignal(_, udid, running) => (Some(udid), running)
      case _ => (None, map[]);
    if udid.None? then []
    else match Victim(FileAt(f, udid.value), m.who, running)
         case None => []
         case Some(pid) => [Ownership.Signalled(m.who, pid)]
  }

  /** The simulator whose claim failed in a move. */
  function Failed(f: Fleet, m: Move): Option<string>
    requires Enabled(f, m)
  {
    if m.Turn? && Claims(f.nodes[m.who].state, m.event).Some? && !m.event.claimed
    then Claims(f.nodes[m.who].state, m.event) else None
  }

  /** What a failed claim leaves in the files, and in the log. */
  function SpoiledFiles(f: Fleet, m: Move): map<string, string>
    requires Enabled(f, m)
  {
    if Failed(f, m).Some? then Ownership.WithFile(f.files, Failed(f, m).value, m.left) else f.files
  }

  function Spoils(f: Fleet, m: Move): seq<Ownership.Act>
    requires Enabled(f, m)
  {
    if Failed(f, m).Some? then [Ownership.Spoiled(m.who, Failed(f, m).value, m.left)] else []
  }

  /** A decision about a real app, with what came of it. */
  function Decisions(f: Fleet, m: Move): seq<Ownership.Act>
    requires Enabled(f, m)
  {
    var s := f.nodes[m.who].state;
    if m.Stop? && s.session.Some? && !s.session.value.mock
    then [Ownership.Decision(m.who, s.attached, s.session.value.terminateOnStop, s.debuggeeExited,
                             Terminate(s.session.value) in NewEffects(f, m))]
    else []
  }

  /** The mover's standing after a move, by its own fields. */
  function NewStanding(f: Fleet, m: Move): Ownership.Member
    requires Enabled(f, m)
  {
    var n := f.nodes[m.who];
    match m
    case Turn(_, e, _, _) =>
      if Claims(n.state, e).Some?
      then Ownership.Member(Ownership.Launched, NodeStep(f, m).state.pidfileUdid) else n.member
    case Stop(_) =>
      if n.state.session.Some? && !n.state.session.value.mock
      then Ownership.Member(Ownership.Decided, n.member.udid) else n.member
    case Release(_, _) => Ownership.Member(Ownership.Gone, n.member.udid)
    case _ => n.member
  }

  /** A move: the proxy's own step, and on the common files and the log what that step did, or failed to do. */
  function Step(f: Fleet, m: Move): Fleet
    requires Enabled(f, m)
  {
    Fleet(Touched(SpoiledFiles(f, m), m.who, m.Release? && m.removed, NewEffects(f, m)),
          f.nodes[m.who := NodeStep(f, m).(member := NewStanding(f, m))],
          f.log + Signals(f, m) + Spoils(f, m) + Decisions(f, m) + Acts(m.who, NewEffects(f, m)))
  }

  // -- what every node keeps --------------------------------------------------

  /** Standing, while in the loop: it has launched exactly when the session is there. */
  predicate LoopingRight(n: Node) {
    && ProxyRuns.Lifecycle(n.state)
    && (n.member.phase == if ProxyRuns.Debugging(n.state) then Ownership.Launched else Ownership.Building)
  }

  /** Every proxy's state is its own run, and its own teardown after that. */
  ghost predicate NodeRight(n: Node) {
    && Legal(Start(n.mock, n.init), n.events)
    && var (s, a) := Exec(Start(n.mock, n.init), n.events);
       (match n.stage
        case Looping => n.state == s && a == Continue && LoopingRight(n)
        case Ended => n.state == s && a != Continue
        case Drained => a != Continue && n.state == DrainPipeline(s, n.drained).(tailers := false, oslog := false)
        case Decided =>
          a != Continue
          && n.state == StopApp(DrainPipeline(s, n.drained).(tailers := false, oslog := false), n.stillOurs)
        case Gone => a != Continue && n.state == Teardown(s, n.drained, n.stillOurs))
       && n.member.udid == s.pidfileUdid
       && (n.stage != Gone ==> n.state.pidfileUdid == s.pidfileUdid && n.member.phase != Ownership.Gone)
       && (n.stage == Ended || n.stage == Drained ==>
             n.member.phase == Ownership.Building || n.member.phase == Ownership.Launched)
  }

  /** What the teardown read of its ownership is what the log said then. */
  ghost predicate ReadRight(f: Fleet, p: nat)
    requires p in f.nodes
  {
    var n := f.nodes[p];
    n.stage == Decided || n.stage == Gone ==>
      n.decidedAt <= |f.log|
      && ((n.member.udid.Some? && !n.stillOurs) <==> Ownership.Succeeded(f.log[..n.decidedAt], p))
  }

  ghost predicate Right(f: Fleet) {
    forall p :: p in f.nodes ==> NodeRight(f.nodes[p]) && ReadRight(f, p)
  }

  /** Distinct proxies that have only started, over whatever files an earlier crash left behind. */
  ghost predicate Init(f: Fleet) {
    && f.log == []
    && forall p :: p in f.nodes ==>
         p <= U32_MAX
         && var n := f.nodes[p];
            n.events == [] && n.state == Start(n.mock, n.init) && n.stage == Looping
            && n.member == Ownership.Member(Ownership.Building, None)
  }

  ghost predicate LegalRun(f: Fleet, ms: seq<Move>)
    decreases |ms|, 0
  {
    ms == [] || (LegalRun(f, ms[..|ms| - 1]) && Enabled(Run(f, ms[..|ms| - 1]), ms[|ms| - 1]))
  }

  ghost function Run(f: Fleet, ms: seq<Move>): Fleet
    requires LegalRun(f, ms)
    decreases |ms|, 1
  {
    if ms == [] then f else Step(Run(f, ms[..|ms| - 1]), ms[|ms| - 1])
  }

  /** The ownership run that a fleet run amounts to. */
  ghost function Images(f: Fleet, ms: seq<Move>): seq<Ownership.Move>
    requires LegalRun(f, ms)
  {
    if ms == [] then []
    else
      var a := Image(Run(f, ms[..|ms| - 1]), ms[|ms| - 1]);
      Images(f, ms[..|ms| - 1]) + if a.Some? then [a.value] else []
  }

  // -- what every move keeps --------------------------------------------------

  predicate SameClaim(s: State, t: State) {
    t.pidfileUdid == s.pidfileUdid
  }

  lemma ClientClaims(s: State, f: Frame, up: bool)
    ensures SameClaim(s, OnClient(s, f, up).0)
  {
    hide ClassifyClient, HandleLaunch, OnDisconnect;
    match ClassifyClient(f) {
      case Launch(q, config) => LaunchClaims(s, q, config);
      case Disconnect(q) => DisconnectClaims(s, q, f, up);
      case _ =>
    }
  }

  lemma LaunchClaims(s: State, q: int, config: Arguments)
    ensures SameClaim(s, HandleLaunch(s, q, config).0)
  {}

  lemma DisconnectClaims(s: State, q: int, f: Frame, up: bool)
    ensures SameClaim(s, OnDisconnect(s, q, f, up).0)
  {}

  lemma ChildClaims(s: State, f: Frame)
    ensures SameClaim(s, OnChild(s, f).0)
  {
    assert ClassifyChild(f).InternalResponse? ==> f.json.Some?;
    hide ClassifyChild, TerminalEvent, AnswerLaunch;
    if f.json.Some? {
      AnswerClaims(s, f.json.value);
    }
  }

  lemma AnswerClaims(s: State, v: Body)
    ensures SameClaim(s, AnswerLaunch(s, v))
  {
    hide RewriteAttachResponse;
  }

  lemma AttachClaims(s: State, app: App, up: bool, up2: bool)
    ensures SameClaim(s, BeginAttach(s, app, up, up2).0)
  {}

  lemma FailureClaims(s: State, message: string)
    ensures SameClaim(s, FailLaunch(s, message))
  {}

  lemma WindDownClaims(s: State, q: int, r: PipelineResult)
    ensures SameClaim(s, WindDown(s, q, r))
  {}

  lemma ResultClaims(s: State, r: PipelineResult, claimed: bool, up: bool, up2: bool)
    ensures OnPipelineDone(s, r, claimed, up, up2).0.pidfileUdid
         == if r.Launched? && s.pendingDisconnect.None? && claimed then Some(r.app.udid) else s.pidfileUdid
  {
    hide BeginAttach, FailLaunch, WindDown;
    var t := s.(pipelineRunning := false);
    if s.pendingDisconnect.Some? {
      WindDownClaims(t, s.pendingDisconnect.value, r);
    } else if r.Launched? {
      AttachClaims(ClaimSimulator(t, r.app, claimed), r.app, up, up2);
    } else {
      FailureClaims(t, r.message);
    }
  }

  /** What a turn does to the claim. */
  lemma TurnClaims(s: State, e: Event)
    requires Loop.Enabled(s, e)
    ensures Loop.Step(s, e).0.pidfileUdid
         == if Claims(s, e).Some? && e.claimed then Claims(s, e) else s.pidfileUdid
  {
    hide OnClient, OnChild, OnPipelineDone;
    match e {
      case ClientFrame(f, up) => ClientClaims(s, f, up);
      case ChildFrame(f) => ChildClaims(s, f);
      case PipelineDone(r, claimed, up, up2) => ResultClaims(s, r, claimed, up, up2);
      case _ =>
    }
  }

  /** A turn after which the loop goes on has launched exactly if it claimed, or had launched before. */
  lemma TurnLaunches(s: State, e: Event)
    requires ProxyRuns.Lifecycle(s) && Loop.Enabled(s, e) && Loop.Step(s, e).1 == Continue
    ensures ProxyRuns.Debugging(Loop.Step(s, e).0) <==> Claims(s, e).Some? || ProxyRuns.Debugging(s)
  {
    ProxyRuns.LifecycleStep(s, e);
    ProxyTraffic.PhaseStep(s, e);
    ProxyRuns.PhasesExclusive(s);
    ProxyRuns.PhasesExclusive(Loop.Step(s, e).0);
    if e.PipelineDone? {
      ProxyTraffic.PhaseRunning(s);
      Delivering(s, e);
    }
    hide Loop.Step, ProxyRuns.OnlyPrepared;
  }

  lemma Delivering(s: State, e: Event)
    requires Loop.Enabled(s, e) && e.PipelineDone? && Loop.Step(s, e).1 == Continue
    ensures Claims(s, e).Some?
  {}

  lemma LegalSnoc(s0: State, es: seq<Event>, e: Event)
    requires Legal(s0, es) && Exec(s0, es).1 == Continue && Loop.Enabled(Exec(s0, es).0, e)
    ensures Legal(s0, es + [e]) && Exec(s0, es + [e]) == Loop.Step(Exec(s0, es).0, e)
  {
    hide Loop.Step, Loop.Enabled;
    assert (es + [e])[..|es|] == es;
  }

  lemma TurnRight(f: Fleet, p: nat, e: Event, running: map<int, string>, left: Option<string>)
    requires p in f.nodes && NodeRight(f.nodes[p]) && Enabled(f, Turn(p, e, running, left))
    ensures NodeRight(NodeStep(f, Turn(p, e, running, left)).(member := NewStanding(f, Turn(p, e, running, left))))
  {
    var n, m := f.nodes[p], Turn(p, e, running, left);
    LegalSnoc(Start(n.mock, n.init), n.events, e);
    TurnClaims(n.state, e);
    ProxyRuns.LifecycleStep(n.state, e);
    if Loop.Step(n.state, e).1 == Continue {
      TurnLaunches(n.state, e);
    }
    if Claims(n.state, e).Some? {
      ClaimsOnce(n.state, e);
    }
    hide Start, Exec, Legal, Loop.Step, Loop.Enabled, Step, NewEffects, ProxyRuns.Lifecycle, ProxyRuns.Debugging;
  }

  lemma ClaimsOnce(s: State, e: Event)
    requires ProxyRuns.Lifecycle(s) && Loop.Enabled(s, e) && Claims(s, e).Some?
    ensures s.pidfileUdid.None?
  {
    hide ProxyRuns.OnlyPrepared;
  }

  lemma DrainKeepsClaim(s: State, drained: Option<PipelineResult>)
    ensures SameClaim(s, DrainPipeline(s, drained).(tailers := false, oslog := false))
  {
    if s.pipelineRunning {
      ProxyFate.DoAdds(s, CancelPipeline);
    }
  }

  lemma TeardownRight(f: Fleet, m: Move)
    requires Enabled(f, m) && (m.Drain? || m.Stop? || m.Release?) && NodeRight(f.nodes[m.who])
    ensures NodeRight(NodeStep(f, m).(member := NewStanding(f, m)))
  {
    var n := f.nodes[m.who];
    DrainKeepsClaim(n.state, if m.Drain? then m.drained else None);
    ProxyFate.StopKeepsClaim(n.state, OwnsFile(f, m.who, n.state));
    hide Start, Exec, Legal, StopApp, DrainPipeline, ReleasePidfile, OwnsFile, LoopingRight, Step;
  }

  lemma MoverRight(f: Fleet, m: Move)
    requires Enabled(f, m) && NodeRight(f.nodes[m.who])
    ensures m.who in Step(f, m).nodes && NodeRight(Step(f, m).nodes[m.who])
  {
    match m {
      case Turn(p, e, running, left) => TurnRight(f, p, e, running, left);
      case EarlySignal(_, _, _) => assert NodeStep(f, m).(member := NewStanding(f, m)) == f.nodes[m.who];
      case _ => TeardownRight(f, m);
    }
    hide NodeRight, NodeStep, NewStanding, Touched, Acts, Signals, Spoils, SpoiledFiles, Decisions, NewEffects;
  }

  /** Nobody else moves, and the log only grows. */
  lemma OthersStay(f: Fleet, m: Move)
    requires Enabled(f, m)
    ensures Step(f, m).nodes.Keys == f.nodes.Keys && f.log <= Step(f, m).log
    ensures forall p :: p in f.nodes && p != m.who ==> Step(f, m).nodes[p] == f.nodes[p]
  {
    hide NodeStep, NewStanding, Touched, Acts, Signals, Spoils, SpoiledFiles, Decisions, NewEffects;
  }

  /** The mover's reading of its ownership, if this is when it reads. */
  lemma MoverReads(f: Fleet, m: Move)
    requires Enabled(f, m) && ReadRight(f, m.who) && NodeRight(f.nodes[m.who])
    requires m.Stop? ==>
      ((f.nodes[m.who].member.udid.Some? && !OwnsFile(f, m.who, f.nodes[m.who].state))
       <==> Ownership.Succeeded(f.log, m.who))
    ensures m.who in Step(f, m).nodes && ReadRight(Step(f, m), m.who)
  {
    OthersStay(f, m);
    var n, t := f.nodes[m.who], Step(f, m);
    assert t.log[..|f.log|] == f.log;
    if n.decidedAt <= |f.log| {
      assert t.log[..n.decidedAt] == f.log[..n.decidedAt];
    }
    hide Loop.Step, StopApp, DrainPipeline, ReleasePidfile, OwnsFile, Ownership.Succeeded, NodeRight, Touched, Acts,
         Signals, Spoils, SpoiledFiles, Decisions, NewEffects;
  }

  // -- refinement -------------------------------------------------------------

  /** What a turn of the loop does outside the channels. */
  function TurnDoes(s: State, e: Event): seq<Effect> {
    match e
    case ClientFrame(f, _) => if ClassifyClient(f).Disconnect? && s.pipelineRunning then [CancelPipeline] else []
    case PipelineDone(r, claimed, _, _) =>
      if r.Error? then []
      else if s.pendingDisconnect.Some? then [if r.app.mock then KillMock(r.app) else Terminate(r.app)]
      else if claimed then [Claim(r.app.udid)]
      else []
    case _ => []
  }

  lemma ClientDoes(s: State, f: Frame, up: bool)
    ensures OnClient(s, f, up).0.effects == s.effects + TurnDoes(s, ClientFrame(f, up))
  {
    hide ClassifyClient, HandleLaunch, OnDisconnect;
    match ClassifyClient(f) {
      case Launch(q, config) => ProxyFate.SessionLaunch(s, q, config);
      case Disconnect(q) => DisconnectDoes(s, q, f, up);
      case _ =>
    }
  }

  lemma DisconnectDoes(s: State, q: int, f: Frame, up: bool)
    ensures OnDisconnect(s, q, f, up).0.effects == s.effects + (if s.pipelineRunning then [CancelPipeline] else [])
  {}

  lemma ResultDoes(s: State, r: PipelineResult, claimed: bool, up: bool, up2: bool)
    ensures OnPipelineDone(s, r, claimed, up, up2).0.effects
         == s.effects + TurnDoes(s, PipelineDone(r, claimed, up, up2))
  {
    hide BeginAttach, FailLaunch, WindDown, ClaimSimulator;
    var t := s.(pipelineRunning := false);
    if s.pendingDisconnect.Some? {
      ProxyFate.WindDownUndoes(t, s.pendingDisconnect.value, r);
    } else if r.Launched? {
      ProxyFate.ClaimAdds(t, r.app, claimed);
      ProxyFate.SessionAttach(ClaimSimulator(t, r.app, claimed), r.app, up, up2);
    } else {
      ProxyFate.FailureQuiet(t, r.message);
    }
  }

  lemma TurnEffects(s: State, e: Event)
    requires Loop.Enabled(s, e)
    ensures Loop.Step(s, e).0.effects == s.effects + TurnDoes(s, e)
  {
    hide OnClient, OnChild, OnPipelineDone;
    match e {
      case ClientFrame(f, up) => ClientDoes(s, f, up);
      case ChildFrame(f) => ProxyFate.SessionChild(s, f);
      case PipelineDone(r, claimed, up, up2) => ResultDoes(s, r, claimed, up, up2);
      case _ =>
    }
  }

  lemma Suffix<T>(a: seq<T>, b: seq<T>)
    ensures (a + b)[|a|..] == b && |a| <= |a + b|
  {}

  /** The effects of each kind of move. */
  lemma MoveDoes(f: Fleet, m: Move)
    requires Enabled(f, m)
    ensures var s := f.nodes[m.who].state;
            NewEffects(f, m)
            == match m
               case Turn(_, e, _, _) => TurnDoes(s, e)
               case EarlySignal(_, _, _) => []
               case Drain(_, _) => if s.pipelineRunning then [CancelPipeline] else []
               case Stop(p) => ProxyFate.StopEffects(s, OwnsFile(f, p, s))
               case Release(_, _) => ProxyFate.ReleaseEffects(s)
  {
    var s := f.nodes[m.who].state;
    match m {
      case Turn(_, e, _, _) =>
        TurnEffects(s, e);
        Suffix(s.effects, TurnDoes(s, e));
      case EarlySignal(_, _, _) =>
      case Drain(_, drained) =>
        ProxyFate.DrainEffects(s, drained);
        Suffix(s.effects, if s.pipelineRunning then [CancelPipeline] else []);
      case Stop(p) =>
        ProxyFate.StopEffectsOf(s, OwnsFile(f, p, s));
        Suffix(s.effects, ProxyFate.StopEffects(s, OwnsFile(f, p, s)));
      case Release(_, _) =>
        ProxyFate.ReleaseEffectsOf(s);
        Suffix(s.effects, ProxyFate.ReleaseEffects(s));
    }
    hide Loop.Step, StopApp, DrainPipeline, ReleasePidfile, OwnsFile, TurnDoes, ProxyFate.StopEffects,
         ProxyFate.ReleaseEffects;
  }

  /** At most one effect at a time, and what it does to the files and the log. */
  lemma OneEffect(files: map<string, string>, who: nat, removed: bool, effects: seq<Effect>)
    requires |effects| <= 1
    ensures Touched(files, who, removed, effects)
         == if effects == [] then files
            else match effects[0]
                 case Claim(udid) => files[udid := PidLine(who)]
                 case Release(udid) =>
                   if removed
                   then Ownership.WithFile(files, udid, AfterRemove(if udid in files then Some(files[udid]) else None, who))
                   else files
                 case _ => files
    ensures Acts(who, effects)
         == if effects == [] then []
            else match effects[0]
                 case Claim(udid) => [Ownership.Claimed(who, udid)]
                 case Release(udid) => [Ownership.Released(who, udid)]
                 case _ => []
  {
    hide PidLine, AfterRemove;
    if effects != [] {
      assert effects[..0] == [];
    }
  }

  /** What ownership sees of a move is one move of its own, or none. */
  ghost predicate Refined(f: Fleet, m: Move)
    requires Enabled(f, m)
  {
    match Image(f, m)
    case None => View(Step(f, m)) == View(f)
    case Some(a) => Ownership.Enabled(View(f), a) && View(Step(f, m)) == Ownership.Step(View(f), a)
  }

  /** Of the nodes, ownership sees the mover's standing change. */
  lemma ViewMoved(f: Fleet, m: Move)
    requires Enabled(f, m)
    ensures View(Step(f, m)) == Ownership.World(
              Touched(SpoiledFiles(f, m), m.who, m.Release? && m.removed, NewEffects(f, m)),
              View(f).proxies[m.who := NewStanding(f, m)],
              f.log + Signals(f, m) + Spoils(f, m) + Decisions(f, m) + Acts(m.who, NewEffects(f, m)))
  {
    hide NodeStep, NewStanding, Touched, Acts, Signals, Spoils, SpoiledFiles, Decisions, NewEffects;
  }

  lemma SeenStanding(f: Fleet, p: nat)
    requires p in f.nodes
    ensures p in View(f).proxies && View(f).proxies[p] == f.nodes[p].member
    ensures View(f).proxies[p := f.nodes[p].member] == View(f).proxies
    ensures forall udid :: Ownership.FileOf(View(f), udid) == FileAt(f, udid)
  {}

  lemma Standing(n: Node)
    requires NodeRight(n)
    ensures n.stage != Gone ==> n.state.pidfileUdid == n.member.udid && n.member.phase != Ownership.Gone
    ensures n.stage == Ended || n.stage == Drained ==>
              n.member.phase == Ownership.Building || n.member.phase == Ownership.Launched
    ensures n.stage == Looping ==> LoopingRight(n)
  {
    hide Exec, Legal, Start, StopApp, DrainPipeline, Teardown, LoopingRight;
  }

  lemma TurnDoesOne(s: State, e: Event)
    ensures var does := TurnDoes(s, e);
            if Claims(s, e).Some? && e.claimed then does == [Claim(Claims(s, e).value)]
            else |does| <= 1 && (does != [] ==> !does[0].Claim? && !does[0].Release?)
  {
    hide ClassifyClient;
  }

  /** The write of a turn that claims. */
  function Written(m: Move, udid: string): Ownership.Act
    requires m.Turn? && m.event.PipelineDone?
  {
    if m.event.claimed then Ownership.Claimed(m.who, udid) else Ownership.Spoiled(m.who, udid, m.left)
  }

  /** What a turn does to the files. */
  lemma TurnFiles(f: Fleet, m: Move)
    requires Enabled(f, m) && m.Turn?
    ensures var udid := Claims(f.nodes[m.who].state, m.event);
            Touched(SpoiledFiles(f, m), m.who, false, NewEffects(f, m))
            == if udid.None? then f.files
               else Ownership.WithFile(f.files, udid.value, Ownership.LeftBy(Written(m, udid.value)))
  {
    var s := f.nodes[m.who].state;
    MoveDoes(f, m);
    TurnDoesOne(s, m.event);
    OneEffect(SpoiledFiles(f, m), m.who, false, TurnDoes(s, m.event));
    hide Loop.Enabled, NodeStep, Touched, Acts, NewEffects, TurnDoes, PidLine;
  }

  /** And to the log. */
  lemma TurnLogs(f: Fleet, m: Move)
    requires Enabled(f, m) && m.Turn?
    ensures var udid := Claims(f.nodes[m.who].state, m.event);
            Spoils(f, m) + Acts(m.who, NewEffects(f, m)) == if udid.None? then [] else [Written(m, udid.value)]
  {
    var s := f.nodes[m.who].state;
    MoveDoes(f, m);
    TurnDoesOne(s, m.event);
    OneEffect(f.files, m.who, false, TurnDoes(s, m.event));
    hide Loop.Enabled, NodeStep, Touched, Acts, NewEffects, TurnDoes, PidLine;
  }

  lemma TurnStands(f: Fleet, m: Move)
    requires Enabled(f, m) && m.Turn?
    ensures var n := f.nodes[m.who];
            var udid := Claims(n.state, m.event);
            NewStanding(f, m)
            == if udid.None? then n.member
               else Ownership.Member(Ownership.Launched, if m.event.claimed then udid else n.state.pidfileUdid)
  {
    TurnClaims(f.nodes[m.who].state, m.event);
    hide Loop.Step, Loop.Enabled;
  }

  lemma TurnSeen(f: Fleet, m: Move)
    requires Enabled(f, m) && m.Turn?
    ensures View(Step(f, m))
         == Ownership.World(Touched(SpoiledFiles(f, m), m.who, false, NewEffects(f, m)),
                            View(f).proxies[m.who := NewStanding(f, m)],
                            f.log + Signals(f, m) + (Spoils(f, m) + Acts(m.who, NewEffects(f, m))))
  {
    ViewMoved(f, m);
    hide NodeStep, Step, View, Touched, Acts, NewEffects, NewStanding, Signals, Spoils, SpoiledFiles;
    assert Decisions(f, m) == [];
  }

  /** A turn that claims nothing shows nothing. */
  lemma IdleRefined(f: Fleet, m: Move)
    requires Enabled(f, m) && m.Turn? && Claims(f.nodes[m.who].state, m.event).None?
    ensures Refined(f, m)
  {
    TurnSeen(f, m);
    SeenStanding(f, m.who);
    TurnFiles(f, m);
    TurnLogs(f, m);
    TurnStands(f, m);
    hide NodeStep, Loop.Step, Loop.Enabled, Step, View, Touched, Acts, NewEffects, NewStanding, Spoils, SpoiledFiles,
         Claims;
    assert Signals(f, m) == [];
    assert f.log + [] + [] == f.log;
  }

  lemma ClaimRefined(f: Fleet, m: Move)
    requires Enabled(f, m) && m.Turn? && Claims(f.nodes[m.who].state, m.event).Some?
    requires f.nodes[m.who].member.phase == Ownership.Building && f.nodes[m.who].state.pidfileUdid.None?
    ensures Refined(f, m)
  {
    TurnSeen(f, m);
    SeenStanding(f, m.who);
    TurnFiles(f, m);
    TurnLogs(f, m);
    TurnStands(f, m);
    hide NodeStep, Loop.Step, Loop.Enabled, Step, View, Touched, Acts, NewEffects, NewStanding, Spoils, SpoiledFiles,
         Ownership.LeftBy, Victim, Ownership.WithFile;
    var udid := Claims(f.nodes[m.who].state, m.event).value;
    assert Signals(f, m) == Ownership.Signal(View(f), m.who, udid, m.running);
    Ownership.ClaimStep(View(f), Image(f, m).value);
    hide Claims, Signals, Ownership.Signal, Ownership.Step, FileAt, Ownership.FileOf;
  }

  lemma TurnRefined(f: Fleet, m: Move)
    requires Enabled(f, m) && m.Turn? && NodeRight(f.nodes[m.who])
    ensures Refined(f, m)
  {
    var n := f.nodes[m.who];
    Standing(n);
    hide NodeRight, Refined, ProxyRuns.Lifecycle, ProxyRuns.Debugging;
    if Claims(n.state, m.event).Some? {
      ClaimsOnce(n.state, m.event);
      BuildingWhenDone(n, m.event);
      ClaimRefined(f, m);
    } else {
      IdleRefined(f, m);
    }
  }

  lemma BuildingWhenDone(n: Node, e: Event)
    requires LoopingRight(n) && Loop.Enabled(n.state, e) && e.PipelineDone?
    ensures n.member.phase == Ownership.Building
  {
    hide ProxyRuns.OnlyPrepared;
  }

  /** The early signal and the drained pipeline touch no file and claim nothing. */
  lemma QuietRefined(f: Fleet, m: Move)
    requires Enabled(f, m) && (m.EarlySignal? || m.Drain?) && NodeRight(f.nodes[m.who])
    ensures Refined(f, m)
  {
    var s := f.nodes[m.who].state;
    Standing(f.nodes[m.who]);
    ViewMoved(f, m);
    SeenStanding(f, m.who);
    MoveDoes(f, m);
    OneEffect(f.files, m.who, false, if m.Drain? && s.pipelineRunning then [CancelPipeline] else []);
    hide NodeRight, StopApp, DrainPipeline, Step, View, Touched, Acts, NewEffects, Victim, LoopingRight, FileAt,
         Ownership.FileOf;
  }

  /** The app is terminated exactly when the decision that ownership takes says so. */
  lemma StopParts(f: Fleet, m: Move)
    requires Enabled(f, m) && m.Stop? && NodeRight(f.nodes[m.who])
    ensures var s := f.nodes[m.who].state;
            var does := NewEffects(f, m);
            Touched(f.files, m.who, false, does) == f.files && Acts(m.who, does) == [] && m.who in View(f).proxies
            && Decisions(f, m)
               == if s.session.None? || s.session.value.mock then []
                  else [Ownership.Decision(m.who, s.attached, s.session.value.terminateOnStop, s.debuggeeExited,
                                           ShouldTerminate(s.attached, s.session.value.terminateOnStop,
                                                           Ownership.IsSuperseded(View(f), m.who), s.debuggeeExited))]
  {
    var s := f.nodes[m.who].state;
    Standing(f.nodes[m.who]);
    SeenStanding(f, m.who);
    MoveDoes(f, m);
    OneEffect(f.files, m.who, false, ProxyFate.StopEffects(s, OwnsFile(f, m.who, s)));
    hide NodeRight, LoopingRight, StopApp, View, Touched, Acts, NewEffects, ShouldTerminate, StillOurs;
    assert Ownership.IsSuperseded(View(f), m.who) <==> Superseded(s, OwnsFile(f, m.who, s));
    hide OwnsFile, Superseded, Ownership.IsSuperseded, FileAt, Ownership.FileOf;
  }

  lemma StopSeen(f: Fleet, m: Move)
    requires Enabled(f, m) && m.Stop? && NodeRight(f.nodes[m.who])
    ensures View(Step(f, m))
         == Ownership.World(f.files, View(f).proxies[m.who := NewStanding(f, m)], f.log + Decisions(f, m))
  {
    ViewMoved(f, m);
    StopParts(f, m);
    hide NodeStep, NodeRight, Step, View, Touched, Acts, NewEffects, NewStanding, Decisions, ShouldTerminate,
         Ownership.IsSuperseded;
    assert Signals(f, m) == [];
    assert f.log + [] + Decisions(f, m) + [] == f.log + Decisions(f, m);
  }

  lemma StopRefined(f: Fleet, m: Move)
    requires Enabled(f, m) && m.Stop? && NodeRight(f.nodes[m.who])
    ensures Refined(f, m)
  {
    Standing(f.nodes[m.who]);
    StopSeen(f, m);
    SeenStanding(f, m.who);
    StopParts(f, m);
    hide NodeStep, NodeRight, LoopingRight, Step, Touched, Acts, NewEffects, Decisions, ShouldTerminate,
         Ownership.IsSuperseded, FileAt, Ownership.FileOf;
    var s := f.nodes[m.who].state;
    if s.session.None? || s.session.value.mock {
      assert f.log + [] == f.log;
    }
  }

  /** The file that goes is the one the ownership protocol removes. */
  lemma ReleaseParts(f: Fleet, m: Move)
    requires Enabled(f, m) && m.Release?
    ensures var udid := f.nodes[m.who].state.pidfileUdid;
            var does := NewEffects(f, m);
            (Touched(f.files, m.who, m.removed, does)
             == if udid.Some? && m.removed
                then Ownership.WithFile(f.files, udid.value, AfterRemove(FileAt(f, udid.value), m.who)) else f.files)
            && Acts(m.who, does) == if udid.Some? then [Ownership.Released(m.who, udid.value)] else []
  {
    var s := f.nodes[m.who].state;
    MoveDoes(f, m);
    OneEffect(f.files, m.who, m.removed, ProxyFate.ReleaseEffects(s));
    hide ReleasePidfile, Touched, Acts, NewEffects, AfterRemove, Ownership.WithFile;
  }

  lemma ReleaseRefined(f: Fleet, m: Move)
    requires Enabled(f, m) && m.Release? && NodeRight(f.nodes[m.who])
    ensures Refined(f, m)
  {
    Standing(f.nodes[m.who]);
    ViewMoved(f, m);
    SeenStanding(f, m.who);
    ReleaseParts(f, m);
    hide NodeStep, NodeRight, LoopingRight, Step, View, Touched, Acts, NewEffects, AfterRemove, FileAt, Ownership.FileOf,
         Ownership.WithFile;
  }

  /** Every move of a proxy in the state of its own run is, through the effects of that proxy alone, one move of the
      ownership protocol, allowed there, or none. */
  lemma MoveRefined(f: Fleet, m: Move)
    requires Enabled(f, m) && NodeRight(f.nodes[m.who])
    ensures Refined(f, m)
  {
    match m {
      case Turn(_, _, _, _) => TurnRefined(f, m);
      case Stop(_) => StopRefined(f, m);
      case Release(_, _) => ReleaseRefined(f, m);
      case _ => QuietRefined(f, m);
    }
    hide NodeRight, Refined;
  }

  // -- over whole runs --------------------------------------------------------

  lemma RightInit(f: Fleet)
    requires Init(f)
    ensures Right(f)
  {
    hide Ownership.Succeeded;
    forall p | p in f.nodes ensures NodeRight(f.nodes[p]) {
      var n := f.nodes[p];
      assert Legal(Start(n.mock, n.init), []);
    }
  }

  lemma {:induction false} NodesRight(f: Fleet, ms: seq<Move>)
    requires Init(f) && LegalRun(f, ms)
    ensures forall p :: p in Run(f, ms).nodes ==> NodeRight(Run(f, ms).nodes[p])
  {
    if ms == [] {
      RightInit(f);
    } else {
      var before, m := ms[..|ms| - 1], ms[|ms| - 1];
      NodesRight(f, before);
      var g := Run(f, before);
      hide NodeRight, ReadRight, Step, Init, Enabled;
      MoverRight(g, m);
      OthersStay(g, m);
    }
  }

  /** Every run of whole proxies is a run of the ownership protocol. */
  lemma {:induction false} FleetRefines(f: Fleet, ms: seq<Move>)
    requires Init(f) && LegalRun(f, ms)
    ensures Ownership.Legal(View(f), Images(f, ms))
    ensures View(Run(f, ms)) == Ownership.Exec(View(f), Images(f, ms))
  {
    if ms != [] {
      hide Step, NodeRight, Init, Enabled, View, Image, Ownership.Step, Ownership.Enabled;
      var before, m := ms[..|ms| - 1], ms[|ms| - 1];
      FleetRefines(f, before);
      NodesRight(f, before);
      var g, images := Run(f, before), Images(f, before);
      MoveRefined(g, m);
      if Image(g, m).Some? {
        assert (images + [Image(g, m).value])[..|images|] == images;
      } else {
        assert images + [] == images;
      }
    }
  }

  lemma InitView(f: Fleet)
    requires Init(f)
    ensures Ownership.Init(View(f))
  {}

  /** What the file says to a proxy about to decide is what the log says. */
  lemma ReadsTheLog(f: Fleet, ms: seq<Move>, p: nat)
    requires Init(f) && LegalRun(f, ms)
    requires var g := Run(f, ms);
             p in g.nodes && g.nodes[p].stage == Drained && NodeRight(g.nodes[p])
    ensures var g := Run(f, ms);
            (g.nodes[p].member.udid.Some? && !OwnsFile(g, p, g.nodes[p].state)) <==> Ownership.Succeeded(g.log, p)
  {
    var g := Run(f, ms);
    FleetRefines(f, ms);
    InitView(f);
    var w := View(g);
    assert w.proxies[p] == g.nodes[p].member && w.log == g.log && w.files == g.files;
    hide Exec, Legal, Start, DrainPipeline, Run, LegalRun, Init, View, Ownership.Exec, Ownership.Legal, Ownership.Init;
    Ownership.DecisionNow(View(f), Images(f, ms), Ownership.Decide(p, false, false, false));
    hide StillOurs, Ownership.Succeeded;
    assert Ownership.IsSuperseded(w, p)
      <==> g.nodes[p].member.udid.Some? && !OwnsFile(g, p, g.nodes[p].state);
  }

  lemma ReadStands(f: Fleet, t: Fleet, p: nat)
    requires p in f.nodes && p in t.nodes && t.nodes[p] == f.nodes[p] && ReadRight(f, p) && f.log <= t.log
    ensures ReadRight(t, p)
  {
    var n := f.nodes[p];
    if n.decidedAt <= |f.log| {
      assert t.log[..n.decidedAt] == f.log[..n.decidedAt];
    }
    hide Ownership.Succeeded;
  }

  lemma RightStep(f: Fleet, m: Move)
    requires Enabled(f, m) && Right(f)
    requires m.Stop? ==>
      ((f.nodes[m.who].member.udid.Some? && !OwnsFile(f, m.who, f.nodes[m.who].state))
       <==> Ownership.Succeeded(f.log, m.who))
    ensures Right(Step(f, m))
  {
    hide NodeRight, ReadRight, Step, OwnsFile, Ownership.Succeeded;
    MoverRight(f, m);
    MoverReads(f, m);
    OthersStay(f, m);
    var t := Step(f, m);
    forall p | p in t.nodes ensures NodeRight(t.nodes[p]) && ReadRight(t, p) {
      if p != m.who {
        ReadStands(f, t, p);
      }
    }
  }

  lemma {:induction false} FleetRight(f: Fleet, ms: seq<Move>)
    requires Init(f) && LegalRun(f, ms)
    ensures Right(Run(f, ms))
  {
    if ms == [] {
      RightInit(f);
    } else {
      var before, m := ms[..|ms| - 1], ms[|ms| - 1];
      FleetRight(f, before);
      var g := Run(f, before);
      if m.Stop? {
        ReadsTheLog(f, before, m.who);
      }
      hide NodeRight, ReadRight, Step, Init, OwnsFile, Ownership.Succeeded;
      RightStep(g, m);
    }
  }

  /** What became of the app of a proxy that has come to its end among others: as `AppFateByFrames` says of it alone,
      with its ownership read off the common log at the moment it decided. No signal takes part in that. */
  lemma FleetFate(f: Fleet, ms: seq<Move>, p: nat, app: App)
    requires Init(f) && LegalRun(f, ms)
    requires var g := Run(f, ms);
             p in g.nodes && g.nodes[p].stage == Gone && ProxyFate.Delivered(g.nodes[p].events) == Some(app)
    ensures var g := Run(f, ms);
            var n := g.nodes[p];
            n.decidedAt <= |g.log| && n.events != []
            && (History.Ends(app) in n.state.effects
                <==> if n.events[|n.events| - 1].PipelineDone?
                     then History.Cancelling(n.events[..|n.events| - 1]).Some?
                     else app.mock
                          || (!Ownership.Succeeded(g.log[..n.decidedAt], p) && !History.ExitedFirst(n.events)
                              && (!History.AttachedBy(n.mock, n.events) || app.terminateOnStop)))
            && forall x :: Terminate(x) in n.state.effects || KillMock(x) in n.state.effects ==> x == app
  {
    FleetRight(f, ms);
    hide Run, LegalRun, Init;
    var g := Run(f, ms);
    var n := g.nodes[p];
    assert NodeRight(n) && ReadRight(g, p);
    GoneReads(n);
    hide NodeRight, History.ClaimedBy, History.ExitedFirst, History.AttachedBy, History.Cancelling, History.Ends,
         ProxyFate.Delivered, Ownership.Succeeded, Right;
    EndedNode(n, app);
  }

  lemma GoneReads(n: Node)
    requires NodeRight(n) && n.stage == Gone
    ensures n.member.udid == History.ClaimedBy(n.events)
  {
    GoneNode(n);
    hide NodeRight, Start, Exec, Legal, Teardown, History.ClaimedBy;
    History.EndIsHistory(n.mock, n.init, n.events);
  }

  lemma GoneNode(n: Node)
    requires NodeRight(n) && n.stage == Gone
    ensures var s0 := Start(n.mock, n.init);
            Legal(s0, n.events) && Exec(s0, n.events).1 != Continue
            && n.state == Teardown(Exec(s0, n.events).0, n.drained, n.stillOurs)
            && n.member.udid == Exec(s0, n.events).0.pidfileUdid
  {
    hide Exec, Legal, Start, Teardown;
  }

  /** One node at its end, in terms of what it read. */
  lemma EndedNode(n: Node, app: App)
    requires NodeRight(n) && n.stage == Gone && ProxyFate.Delivered(n.events) == Some(app)
    ensures n.events != []
    ensures History.Ends(app) in n.state.effects
       <==> if n.events[|n.events| - 1].PipelineDone? then History.Cancelling(n.events[..|n.events| - 1]).Some?
            else app.mock || (!(History.ClaimedBy(n.events).Some? && !n.stillOurs) && !History.ExitedFirst(n.events)
                              && (!History.AttachedBy(n.mock, n.events) || app.terminateOnStop))
    ensures forall x :: Terminate(x) in n.state.effects || KillMock(x) in n.state.effects ==> x == app
  {
    GoneNode(n);
    hide NodeRight, Exec, Legal, Start, Teardown, History.ClaimedBy, History.ExitedFirst, History.AttachedBy,
         History.Cancelling, History.Ends, ProxyFate.Delivered;
    History.AppFateByFrames(n.mock, n.init, n.events, n.drained, n.stillOurs, app);
  }

  /** So an owner that a signal ends decides by its own frames, and nobody else's claim: its app is stopped unless the
      child had said that it exited, or it was attached and is to outlive the session. */
  lemma SignalledOwnerDecides(f: Fleet, ms: seq<Move>, p: nat, app: App)
    requires Init(f) && LegalRun(f, ms)
    requires var g := Run(f, ms);
             p in g.nodes && g.nodes[p].stage == Gone && ProxyFate.Delivered(g.nodes[p].events) == Some(app)
             && g.nodes[p].events != [] && g.nodes[p].events[|g.nodes[p].events| - 1] == Signal
             && g.nodes[p].decidedAt <= |g.log| && !Ownership.Succeeded(g.log[..g.nodes[p].decidedAt], p)
    ensures var n := Run(f, ms).nodes[p];
            History.Ends(app) in n.state.effects
            <==> app.mock || (!History.ExitedFirst(n.events) && (!History.AttachedBy(n.mock, n.events) || app.terminateOnStop))
  {
    FleetFate(f, ms, p, app);
    hide Run, LegalRun, Init, Ownership.Succeeded, ProxyFate.Delivered, History.ExitedFirst, History.AttachedBy,
         History.Ends, History.Cancelling;
  }

  // -- who is signalled -------------------------------------------------------

  /** A turn that claims the simulator, or the early signal there. */
  predicate Targets(f: Fleet, m: Move, udid: string)
    requires Enabled(f, m)
  {
    match m
    case Turn(p, e, _, _) => Claims(f.nodes[p].state, e) == Some(udid)
    case EarlySignal(_, u, _) => u == udid
    case _ => false
  }

  /** `q` has claimed the simulator last, of all that wrote its file, and has not given it up. */
  predicate Holds(f: Fleet, q: nat, udid: string) {
    Ownership.LastWrite(f.log, udid) == Some(Ownership.Claimed(q, udid))
    && q in f.nodes && f.nodes[q].member.phase != Ownership.Gone
  }

  /** What a move adds to the log. */
  function Logged(f: Fleet, m: Move): seq<Ownership.Act>
    requires Enabled(f, m)
  {
    var after := Step(f, m).log;
    if |f.log| <= |after| then after[|f.log|..] else []
  }

  /** Among whole proxies: one that claims a simulator, or signals early, signals the proxy that holds it exactly when
      that one is still alive as `xcode-dap`. */
  lemma PredecessorSignalled(f: Fleet, ms: seq<Move>, m: Move, udid: string, q: nat)
    requires Init(f) && LegalRun(f, ms) && Enabled(Run(f, ms), m)
    requires Targets(Run(f, ms), m, udid) && Holds(Run(f, ms), q, udid)
    requires q != m.who && 1 < q <= 0x7FFF_FFFF
    ensures Ownership.Signalled(m.who, q) in Logged(Run(f, ms), m) <==> q in m.running && m.running[q] == "xcode-dap"
  {
    var g := Run(f, ms);
    SignalImage(g, m, udid);
    ImageStep(f, ms, m);
    SeenStanding(g, q);
    var a := Image(g, m).value;
    hide Run, LegalRun, Init, Images, Image, Enabled, Targets, Step, View, Ownership.LastWrite, Ownership.Step,
         Ownership.Legal, Ownership.Exec, Ownership.Init, Ownership.Enabled, Claims;
    HolderSignalled(View(f), Images(f, ms), View(g), a, q);
  }

  lemma HolderSignalled(w: Ownership.World, ms: seq<Ownership.Move>, v: Ownership.World, a: Ownership.Move, q: nat)
    requires Ownership.Init(w) && Ownership.Legal(w, ms) && Ownership.Exec(w, ms) == v && Ownership.Enabled(v, a)
    requires a.KillOld? || a.ClaimSim?
    requires Ownership.LastWrite(v.log, a.udid) == Some(Ownership.Claimed(q, a.udid))
    requires q in v.proxies && v.proxies[q].phase != Ownership.Gone && q != a.who && 1 < q <= 0x7FFF_FFFF
    ensures var after := Ownership.Step(v, a).log;
            |v.log| <= |after|
            && (Ownership.Signalled(a.who, q) in after[|v.log|..] <==> q in a.running && a.running[q] == "xcode-dap")
  {
    hide Ownership.LastWrite, Ownership.Step, Ownership.Legal, Ownership.Exec, Ownership.Init, Ownership.Enabled;
    Ownership.ClaimerSignalled(w, ms, a, q);
    LogShows(v.log, Ownership.Step(v, a).log, q in a.running && a.running[q] == "xcode-dap", a.who, q,
             if a.ClaimSim? then [Ownership.Write(a)] else []);
  }

  lemma SignalImage(f: Fleet, m: Move, udid: string)
    requires Enabled(f, m) && Targets(f, m, udid)
    ensures m.Turn? || m.EarlySignal?
    ensures Image(f, m).Some?
    ensures var a := Image(f, m).value;
            (a.KillOld? || a.ClaimSim?) && a.who == m.who && a.udid == udid && a.running == m.running
  {
    hide Claims, Loop.Enabled;
  }

  /** A move after a run of the fleet, as ownership sees both. */
  lemma ImageStep(f: Fleet, ms: seq<Move>, m: Move)
    requires Init(f) && LegalRun(f, ms) && Enabled(Run(f, ms), m) && Image(Run(f, ms), m).Some?
    ensures var images, a := Images(f, ms), Image(Run(f, ms), m).value;
            Ownership.Init(View(f)) && Ownership.Legal(View(f), images)
            && Ownership.Exec(View(f), images) == View(Run(f, ms)) && View(Run(f, ms)).log == Run(f, ms).log
            && Ownership.Enabled(View(Run(f, ms)), a)
            && Ownership.Step(View(Run(f, ms)), a).log == Step(Run(f, ms), m).log
  {
    FleetRefines(f, ms);
    NodesRight(f, ms);
    MoveRefined(Run(f, ms), m);
    InitView(f);
    hide Run, LegalRun, Init, Images, Image, Step, NodeRight, Enabled, Ownership.Step, Ownership.Legal, Ownership.Exec,
         Ownership.Init, Ownership.Enabled;
  }

  lemma LogShows(before: seq<Ownership.Act>, after: seq<Ownership.Act>, signals: bool, who: nat, q: nat,
                 rest: seq<Ownership.Act>)
    requires after == before + (if signals then [Ownership.Signalled(who, q)] else []) + rest
    requires forall a :: a in rest ==> !a.Signalled?
    ensures |before| <= |after|
    ensures Ownership.Signalled(who, q) in after[|before|..] <==> signals
  {
    var first := if signals then [Ownership.Signalled(who, q)] else [];
    assert after[|before|..] == first + rest;
  }
}
