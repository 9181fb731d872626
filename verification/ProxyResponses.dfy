/** Which responses reach the client over every run of the proxy's loop, and what becomes of the app. */
module ProxyResponses {
  import opened Text
  import opened Peek
  import opened Proxy
  import opened ProxyRuns
  import opened ProxyTraffic

  // -- counting ---------------------------------------------------------------

  /** How many responses to request `q` are among `outs`. */
  function Count(outs: seq<Out>, q: int): nat {
    if outs == [] then 0 else (if Answers(outs[0]) == Some(q) then 1 else 0) + Count(outs[1..], q)
  }

  /** How many times message kind `m` was built. */
  function Successes(outs: seq<Out>): nat {
    if outs == [] then 0
    else (if outs[0].Built? && outs[0].msg.SuccessResponse? then 1 else 0) + Successes(outs[1..])
  }

  function Terminations(outs: seq<Out>): nat {
    if outs == [] then 0
    else (if outs[0] == Built(TerminatedEvent) then 1 else 0) + Terminations(outs[1..])
  }

  /** Request numbers the child has been asked under. */
  function Asked(outs: seq<Out>): set<int> {
    if outs == [] then {} else (if Asks(outs[0]).Some? then {Asks(outs[0]).value} else {}) + Asked(outs[1..])
  }

  /** Numbers of the requests the proxy built itself, in order. */
  function OwnSeqs(outs: seq<Out>): seq<int> {
    if outs == [] then []
    else (if outs[0].Built? && Asks(outs[0]).Some? then [Asks(outs[0]).value] else []) + OwnSeqs(outs[1..])
  }

  lemma {:induction false} CountAppend(a: seq<Out>, b: seq<Out>, q: int)
    ensures Count(a + b, q) == Count(a, q) + Count(b, q)
  {
    hide Answers;
    if a == [] {
      assert a + b == b;
    } else {
      assert (a + b)[1..] == a[1..] + b && (a + b)[0] == a[0];
      CountAppend(a[1..], b, q);
    }
  }

  lemma {:induction false} EndingsAppend(a: seq<Out>, b: seq<Out>)
    ensures Successes(a + b) == Successes(a) + Successes(b)
    ensures Terminations(a + b) == Terminations(a) + Terminations(b)
  {
    if a == [] {
      assert a + b == b;
    } else {
      assert (a + b)[1..] == a[1..] + b && (a + b)[0] == a[0];
      EndingsAppend(a[1..], b);
    }
  }

  lemma {:induction false} AskedAppend(a: seq<Out>, b: seq<Out>)
    ensures Asked(a + b) == Asked(a) + Asked(b)
  {
    hide Asks;
    if a == [] {
      assert a + b == b;
    } else {
      assert (a + b)[1..] == a[1..] + b && (a + b)[0] == a[0];
      AskedAppend(a[1..], b);
    }
  }

  lemma {:induction false} OwnSeqsAppend(a: seq<Out>, b: seq<Out>)
    ensures OwnSeqs(a + b) == OwnSeqs(a) + OwnSeqs(b)
  {
    hide Asks;
    if a == [] {
      assert a + b == b;
    } else {
      assert (a + b)[1..] == a[1..] + b && (a + b)[0] == a[0];
      OwnSeqsAppend(a[1..], b);
      Associate(if a[0].Built? && Asks(a[0]).Some? then [Asks(a[0]).value] else [], OwnSeqs(a[1..]), OwnSeqs(b));
    }
  }

  // -- the client and the child keep to the protocol --------------------------

  /** Numbers of the requests the client sent, `initialize` included. */
  function ClientSeqs(init: Frame, es: seq<Event>): set<int> {
    if es == [] then (if RequestSeq(init).Some? then {RequestSeq(init).value} else {})
    else ClientSeqs(init, es[..|es| - 1]) +
         if es[|es| - 1].ClientFrame? && RequestSeq(es[|es| - 1].frame).Some?
         then {RequestSeq(es[|es| - 1].frame).value} else {}
  }

  /** The client numbers its requests below `SEQ_BASE` and no two alike. */
  predicate GoodClient(init: Frame, es: seq<Event>) {
    if es == [] then RequestSeq(init).Some? ==> RequestSeq(init).value < SEQ_BASE
    else
      GoodClient(init, es[..|es| - 1]) && FreshRequest(ClientSeqs(init, es[..|es| - 1]), es[|es| - 1])
  }

  predicate FreshRequest(used: set<int>, e: Event) {
    e.ClientFrame? && RequestSeq(e.frame).Some?
    ==> RequestSeq(e.frame).value < SEQ_BASE && RequestSeq(e.frame).value !in used
  }

  /** Requests the child has answered. */
  function ChildAnswered(es: seq<Event>): set<int> {
    if es == [] then {} else
    ChildAnswered(es[..|es| - 1]) +
    if es[|es| - 1].ChildFrame? && FrameAnswers(es[|es| - 1].frame).Some?
    then {FrameAnswers(es[|es| - 1].frame).value} else {}
  }

  /** The child answers only requests it was sent, each at most once. */
  predicate GoodChild(s0: State, es: seq<Event>)
    requires Legal(s0, es)
  {
    es == [] ||
    (GoodChild(s0, es[..|es| - 1])
     && FreshAnswer(Asked(Exec(s0, es[..|es| - 1]).0.toChild), ChildAnswered(es[..|es| - 1]), es[|es| - 1]))
  }

  predicate FreshAnswer(asked: set<int>, answered: set<int>, e: Event) {
    e.ChildFrame? && FrameAnswers(e.frame).Some?
    ==> FrameAnswers(e.frame).value in asked && FrameAnswers(e.frame).value !in answered
  }

  // -- the books at every loop head -------------------------------------------

  /** `clients`: request numbers the client has used; `answered`: those the child has answered. */
  ghost predicate Books(s: State, clients: set<int>, answered: set<int>) {
    var asked := Asked(s.toChild);
    && s.nextSeq >= SEQ_BASE
    && (forall q :: q in clients ==> q < SEQ_BASE)
    && answered <= asked
    && (forall q :: Count(s.toClient, q) <= 1)
    && (forall q :: Count(s.toClient, q) > 0 ==> q in clients)
    && (forall q :: q in asked && q < SEQ_BASE ==> q in clients && (Count(s.toClient, q) == 1 <==> q in answered))
    && (s.launchSeq.Some? ==> s.launchSeq.value in clients && s.launchSeq.value !in asked
                              && (Count(s.toClient, s.launchSeq.value) == 1
                                  ==> s.attachSeq.Some? && s.attachSeq.value in answered))
    && (s.pendingDisconnect.Some? ==> s.pendingDisconnect.value in clients && s.pendingDisconnect.value !in asked
                                      && Count(s.toClient, s.pendingDisconnect.value) == 0
                                      && s.launchSeq != s.pendingDisconnect)
    && (s.disconnectWait.Some? ==> s.disconnectWait.value in clients && s.disconnectWait.value in asked)
    && (s.attachSeq.Some? ==> s.attachSeq.value >= SEQ_BASE)
  }

  function NewClients(clients: set<int>, e: Event): set<int> {
    clients + if e.ClientFrame? && RequestSeq(e.frame).Some? then {RequestSeq(e.frame).value} else {}
  }

  function NewAnswered(answered: set<int>, e: Event): set<int> {
    answered + if e.ChildFrame? && FrameAnswers(e.frame).Some? then {FrameAnswers(e.frame).value} else {}
  }

  /** The response a step adds, if any: never more than one. */
  function Answer(s: State, e: Event): Option<int> {
    match e
    case ClientFrame(f, _) =>
      (match ClassifyClient(f)
       case Launch(q, config) =>
         if s.pipelineRunning || s.session.Some? || (!s.mock && config.Unparsed?) then Some(q) else None
       case Disconnect(q) => if !s.pipelineRunning && s.sessionEnded then Some(q) else None
       case _ => None)
    case ChildFrame(f) =>
      (match ClassifyChild(f)
       case ChildMalformed => None
       case InternalResponse(q) => if s.attachSeq == Some(q) then Some(GetOr(s.launchSeq, 0)) else None
       case ChildOther => FrameAnswers(f))
    case PipelineDone(r, _, _, _) =>
      if s.pendingDisconnect.Some? then s.pendingDisconnect
      else if r.Error? then Some(GetOr(s.launchSeq, 0)) else None
    case Deadline => s.disconnectWait
    case _ => None
  }

  lemma CountShort(outs: seq<Out>, q: int)
    requires |outs| <= 3
    ensures Count(outs, q) == (if |outs| > 0 && Answers(outs[0]) == Some(q) then 1 else 0)
                            + (if |outs| > 1 && Answers(outs[1]) == Some(q) then 1 else 0)
                            + (if |outs| > 2 && Answers(outs[2]) == Some(q) then 1 else 0)
    ensures Successes(outs) == (if |outs| > 0 && outs[0].Built? && outs[0].msg.SuccessResponse? then 1 else 0)
                             + (if |outs| > 1 && outs[1].Built? && outs[1].msg.SuccessResponse? then 1 else 0)
                             + (if |outs| > 2 && outs[2].Built? && outs[2].msg.SuccessResponse? then 1 else 0)
    ensures Terminations(outs) == (if |outs| > 0 && outs[0] == Built(TerminatedEvent) then 1 else 0)
                                + (if |outs| > 1 && outs[1] == Built(TerminatedEvent) then 1 else 0)
                                + (if |outs| > 2 && outs[2] == Built(TerminatedEvent) then 1 else 0)
  {
    hide Answers;
  }

  lemma AnswerCounts(s: State, e: Event, q: int)
    requires Enabled(s, e)
    ensures Count(Says(s, e), q) == if Answer(s, e) == Some(q) then 1 else 0
  {
    CountShort(Says(s, e), q);
    if e.ChildFrame? {
      assert ClassifyChild(e.frame).InternalResponse? ==> e.frame.json.Some? && e.frame.json.value.kind == Some("response");
    }
    hide ClassifyClient, ClassifyChild, Count;
  }

  /** The numbers a step asks the child under. */
  lemma AskedBy(s: State, e: Event)
    requires Enabled(s, e)
    ensures e.ClientFrame? ==>
              Asked(Requests(s, e)) == (if e.up && Forwards(s.pipelineRunning, e.frame) && RequestSeq(e.frame).Some?
                                        then {RequestSeq(e.frame).value} else {})
    ensures e.PipelineDone? ==> forall q :: q in Asked(Requests(s, e)) ==> q >= s.nextSeq
    ensures !e.ClientFrame? && !e.PipelineDone? ==> Asked(Requests(s, e)) == {}
  {
    hide ClassifyClient, Forwards, RequestSeq;
    AskedShort(Requests(s, e));
  }

  lemma AskedShort(outs: seq<Out>)
    requires |outs| <= 2
    ensures Asked(outs) == (if |outs| > 0 && Asks(outs[0]).Some? then {Asks(outs[0]).value} else {})
                         + (if |outs| > 1 && Asks(outs[1]).Some? then {Asks(outs[1]).value} else {})
  {
    hide Asks;
  }

  /** The books after a step, in terms of the one response it may add and the numbers it asks under. */
  lemma Posted(s: State, e: Event, q: int)
    requires Enabled(s, e)
    ensures Count(Step(s, e).0.toClient, q) == Count(s.toClient, q) + if Answer(s, e) == Some(q) then 1 else 0
    ensures Asked(Step(s, e).0.toChild) == Asked(s.toChild) + Asked(Requests(s, e))
  {
    hide Step, Says, Requests, Answer, Count, Asked;
    StepSends(s, e);
    AnswerCounts(s, e, q);
    CountAppend(s.toClient, Says(s, e), q);
    AskedAppend(s.toChild, Requests(s, e));
  }

  /** The numbers the books speak of. */
  predicate SameNumbers(s: State, t: State) {
    && t.nextSeq == s.nextSeq && t.launchSeq == s.launchSeq && t.attachSeq == s.attachSeq
    && t.pendingDisconnect == s.pendingDisconnect && t.disconnectWait == s.disconnectWait
  }

  /** The channels of `t` hold what those of `s` held, the responses `answer`, and requests under `asked`. */
  ghost predicate Moved(s: State, t: State, answer: Option<int>, asked: set<int>) {
    && (forall q :: Count(t.toClient, q) == Count(s.toClient, q) + if answer == Some(q) then 1 else 0)
    && Asked(t.toChild) == Asked(s.toChild) + asked
  }

  lemma StepMoves(s: State, e: Event)
    requires Enabled(s, e)
    ensures Moved(s, Step(s, e).0, Answer(s, e), Asked(Requests(s, e)))
  {
    hide Step, Count, Asked, Answer, Requests;
    forall q ensures Count(Step(s, e).0.toClient, q) == Count(s.toClient, q) + if Answer(s, e) == Some(q) then 1 else 0 {
      Posted(s, e, q);
    }
    Posted(s, e, 0);
  }

  /** A fresh request, forwarded or not, is answered by nobody yet. */
  lemma BooksFresh(s: State, clients: set<int>, answered: set<int>, r: int)
    requires Books(s, clients, answered) && r < SEQ_BASE && r !in clients
    ensures Count(s.toClient, r) == 0 && r !in Asked(s.toChild) && r !in answered
    ensures s.launchSeq != Some(r) && s.pendingDisconnect != Some(r) && s.disconnectWait != Some(r)
  {
    hide Count, Asked;
  }

  /** A client frame goes to the child. */
  lemma BooksForward(s: State, t: State, clients: set<int>, answered: set<int>, r: Option<int>)
    requires Books(s, clients, answered) && (r.Some? ==> r.value < SEQ_BASE && r.value !in clients)
    requires Moved(s, t, None, if r.Some? then {r.value} else {})
    requires SameNumbers(s, t) || (r.Some? && SameNumbers(s.(disconnectWait := r), t))
    ensures Books(t, clients + (if r.Some? then {r.value} else {}), answered)
  {
    if r.Some? {
      BooksFresh(s, clients, answered, r.value);
    }
    hide Count, Asked;
  }

  /** A launch or disconnect is kept back: noted, or answered at once. */
  lemma BooksKeep(s: State, t: State, clients: set<int>, answered: set<int>, r: int, answer: Option<int>)
    requires Books(s, clients, answered) && r < SEQ_BASE && r !in clients
    requires Moved(s, t, answer, {}) && (answer == Some(r) || answer == None)
    requires if answer.Some? then SameNumbers(s, t)
             else SameNumbers(s.(pendingDisconnect := Some(r)), t)
                  || (s.pendingDisconnect.None? && SameNumbers(s.(launchSeq := Some(r)), t))
    ensures Books(t, clients + {r}, answered)
  {
    BooksFresh(s, clients, answered, r);
    hide Count, Asked;
  }

  lemma LaunchNumbers(s: State, q: int, config: Arguments)
    requires HandleLaunch(s, q, config).1 == Continue
    ensures var t := HandleLaunch(s, q, config).0;
            if s.pipelineRunning || s.session.Some? then SameNumbers(s, t)
            else SameNumbers(s.(launchSeq := Some(q)), t) && (s.mock || config.Parsed?)
  {}

  lemma DisconnectNumbers(s: State, q: int, f: Frame, up: bool)
    requires OnDisconnect(s, q, f, up).1 == Continue
    ensures var t := OnDisconnect(s, q, f, up).0;
            if s.pipelineRunning then SameNumbers(s.(pendingDisconnect := Some(q)), t)
            else SameNumbers(s.(disconnectWait := Some(q)), t) && up && !s.sessionEnded
  {}

  lemma BooksClient(s: State, f: Frame, up: bool, clients: set<int>, answered: set<int>)
    requires Lifecycle(s) && Books(s, clients, answered) && OnClient(s, f, up).1 == Continue
    requires FreshRequest(clients, ClientFrame(f, up))
    ensures Books(OnClient(s, f, up).0, NewClients(clients, ClientFrame(f, up)), answered)
  {
    var e := ClientFrame(f, up);
    var t := OnClient(s, f, up).0;
    StepMoves(s, e);
    AskedBy(s, e);
    RequestNumber(f);
    hide ClassifyClient, RequestSeq, Count, Asked, Moved, Books, HandleLaunch, OnDisconnect, OnlyPrepared;
    match ClassifyClient(f) {
      case Launch(q, config) =>
        LaunchNumbers(s, q, config);
        BooksKeep(s, t, clients, answered, q, Answer(s, e));
      case Disconnect(q) =>
        DisconnectNumbers(s, q, f, up);
        if s.pipelineRunning {
          BooksKeep(s, t, clients, answered, q, None);
        } else {
          BooksForward(s, t, clients, answered, Some(q));
        }
      case _ =>
        BooksForward(s, t, clients, answered, RequestSeq(f));
    }
  }

  lemma RequestNumber(f: Frame)
    ensures match ClassifyClient(f)
            case Launch(q, _) => RequestSeq(f) == Some(q)
            case Disconnect(q) => RequestSeq(f) == Some(q)
            case _ => true
  {}

  lemma AnswerNumbers(s: State, v: Body)
    ensures SameNumbers(s, AnswerLaunch(s, v))
  {
    hide RewriteAttachResponse, Tell, StartTailers;
    var (msg, _) := RewriteAttachResponse(v, GetOr(s.launchSeq, 0));
    var t := Tell(s, msg);
    var u := Tell(t.(attached := true), OutputEvent(CONSOLE, ATTACHED));
    TellNumbers(s, msg);
    TellNumbers(t, OutputEvent(STDERR, ATTACH_FAILED));
    TellNumbers(t.(attached := true), OutputEvent(CONSOLE, ATTACHED));
    TailersNumbers(u);
  }

  lemma TellNumbers(s: State, m: Msg)
    ensures SameNumbers(s, Tell(s, m))
  {}

  lemma TailersNumbers(s: State)
    ensures SameNumbers(s, StartTailers(s))
  {}

  lemma ChildNumbers(s: State, f: Frame)
    ensures SameNumbers(s, OnChild(s, f).0)
  {
    assert ClassifyChild(f).InternalResponse? ==> f.json.Some?;
    hide ClassifyChild, TerminalEvent, AnswerLaunch;
    if f.json.Some? {
      AnswerNumbers(s, f.json.value);
    }
  }

  /** The child answers request `r`: passed on, rewritten onto the launch, or dropped. */
  lemma BooksAnswered(s: State, t: State, clients: set<int>, answered: set<int>, r: int, answer: Option<int>)
    requires Books(s, clients, answered) && SameNumbers(s, t) && Moved(s, t, answer, {})
    requires r in Asked(s.toChild) && r !in answered
    requires if r < SEQ_BASE then answer == Some(r)
             else answer == if s.attachSeq == Some(r) then s.launchSeq else None
    ensures Books(t, clients, answered + {r})
  {
    hide Count, Asked;
  }

  /** Nothing the books speak of changes. */
  lemma BooksSame(s: State, t: State, clients: set<int>, answered: set<int>)
    requires Books(s, clients, answered) && SameNumbers(s, t) && Moved(s, t, None, {})
    ensures Books(t, clients, answered)
  {
    hide Count, Asked;
  }

  lemma BooksChild(s: State, f: Frame, clients: set<int>, answered: set<int>)
    requires Lifecycle(s) && Books(s, clients, answered) && OnChild(s, f).1 == Continue
    requires FreshAnswer(Asked(s.toChild), answered, ChildFrame(f))
    ensures Books(OnChild(s, f).0, clients, NewAnswered(answered, ChildFrame(f)))
  {
    var e := ChildFrame(f);
    var t := OnChild(s, f).0;
    StepMoves(s, e);
    AskedBy(s, e);
    ChildNumbers(s, f);
    hide ClassifyChild, FrameAnswers, Count, Asked, Moved, Books, OnChild, OnlyPrepared;
    if FrameAnswers(f).Some? {
      BooksAnswered(s, t, clients, answered, FrameAnswers(f).value, Answer(s, e));
    } else {
      assert NewAnswered(answered, e) == answered;
      BooksSame(s, t, clients, answered);
    }
  }

  lemma PipelineNumbers(s: State, r: PipelineResult, claimed: bool, up: bool, up2: bool)
    requires OnPipelineDone(s, r, claimed, up, up2).1 == Continue
    ensures var t := OnPipelineDone(s, r, claimed, up, up2).0;
            s.pendingDisconnect.None? && r.Launched? && t.nextSeq >= s.nextSeq && t.launchSeq == s.launchSeq
            && t.attachSeq.Some? && t.attachSeq.value >= s.nextSeq
            && t.pendingDisconnect == s.pendingDisconnect && t.disconnectWait == s.disconnectWait
  {
    hide FailLaunch, WindDown;
  }

  /** The proxy asks on its own account; the launch it attaches for is not yet answered. */
  lemma BooksAsk(s: State, t: State, clients: set<int>, answered: set<int>, asked: set<int>)
    requires Books(s, clients, answered) && Moved(s, t, None, asked) && (forall q :: q in asked ==> q >= s.nextSeq)
    requires s.attachSeq.None? && t.attachSeq.Some? && t.attachSeq.value >= s.nextSeq && t.nextSeq >= s.nextSeq
    requires t.launchSeq == s.launchSeq && t.pendingDisconnect == s.pendingDisconnect && t.disconnectWait == s.disconnectWait
    ensures Books(t, clients, answered)
  {
    hide Count, Asked;
  }

  lemma BooksPipeline(s: State, r: PipelineResult, claimed: bool, up: bool, up2: bool, clients: set<int>, answered: set<int>)
    requires Building(s) && Books(s, clients, answered) && Enabled(s, PipelineDone(r, claimed, up, up2))
    requires OnPipelineDone(s, r, claimed, up, up2).1 == Continue
    ensures Books(OnPipelineDone(s, r, claimed, up, up2).0, clients, answered)
  {
    var e := PipelineDone(r, claimed, up, up2);
    StepMoves(s, e);
    AskedBy(s, e);
    PipelineNumbers(s, r, claimed, up, up2);
    hide Count, Asked, OnPipelineDone, Requests, Books, Moved;
    BooksAsk(s, Step(s, e).0, clients, answered, Asked(Requests(s, e)));
  }

  lemma BooksStep(s: State, e: Event, clients: set<int>, answered: set<int>)
    requires Lifecycle(s) && Books(s, clients, answered) && Enabled(s, e) && Step(s, e).1 == Continue
    requires FreshRequest(clients, e) && FreshAnswer(Asked(s.toChild), answered, e)
    ensures Books(Step(s, e).0, NewClients(clients, e), NewAnswered(answered, e))
  {
    hide Books, FreshRequest, FreshAnswer, OnlyPrepared, OnClient, OnChild, OnPipelineDone, Asked;
    assert !e.ClientFrame? ==> NewClients(clients, e) == clients;
    assert !e.ChildFrame? ==> NewAnswered(answered, e) == answered;
    match e {
      case ClientFrame(f, up) => BooksClient(s, f, up, clients, answered);
      case ChildFrame(f) => BooksChild(s, f, clients, answered);
      case PipelineDone(r, claimed, up, up2) =>
        PhaseRunning(s);
        BooksPipeline(s, r, claimed, up, up2, clients, answered);
      case SinkLine(_, _) =>
        StepMoves(s, e);
        AskedBy(s, e);
        BooksSame(s, Step(s, e).0, clients, answered);
      case _ =>
    }
  }

  /** At every loop head of a run with a well-behaved client and child the books balance. */
  lemma {:induction false} BooksBalance(mock: bool, init: Frame, es: seq<Event>)
    requires Legal(Start(mock, init), es) && Exec(Start(mock, init), es).1 == Continue
    requires GoodClient(init, es) && GoodChild(Start(mock, init), es)
    ensures Books(Exec(Start(mock, init), es).0, ClientSeqs(init, es), ChildAnswered(es))
  {
    var s0 := Start(mock, init);
    if es == [] {
      AskedShort(s0.toChild);
    } else {
      hide Books, Lifecycle, Step, Start, Enabled, FreshRequest, FreshAnswer;
      var before, e := es[..|es| - 1], es[|es| - 1];
      BooksBalance(mock, init, before);
      LifecycleHolds(mock, init, before);
      BooksStep(Exec(s0, before).0, e, ClientSeqs(init, before), ChildAnswered(before));
    }
  }

  // -- the response discipline ------------------------------------------------

  /** The one way to a second response: the deadline answers a disconnect the child has answered too. */
  predicate Twice(s: State, e: Event, answered: set<int>, q: int) {
    e.Deadline? && s.disconnectWait == Some(q) && q in answered
  }

  lemma AnswerFresh(s: State, e: Event, clients: set<int>, answered: set<int>, q: int)
    requires Lifecycle(s) && Books(s, clients, answered) && Enabled(s, e)
    requires FreshRequest(clients, e) && FreshAnswer(Asked(s.toChild), answered, e)
    requires Answer(s, e) == Some(q)
    ensures q < SEQ_BASE
    ensures Count(s.toClient, q) == if Twice(s, e, answered, q) then 1 else 0
  {
    match e {
      case ClientFrame(f, _) =>
        RequestNumber(f);
        hide ClassifyClient, RequestSeq, Count, Asked, OnlyPrepared;
        BooksFresh(s, clients, answered, q);
      case ChildFrame(f) =>
        ChildNumbers(s, f);
        hide ClassifyChild, FrameAnswers, Count, Asked, OnlyPrepared;
      case _ =>
        hide Count, Asked, OnlyPrepared;
    }
  }

  /** Over every run: no response reaches the client under a number of the proxy's own, and no request is
      answered twice, save a disconnect the child answered before the deadline arm did. */
  lemma ResponseDiscipline(mock: bool, init: Frame, es: seq<Event>, q: int)
    requires Legal(Start(mock, init), es) && GoodClient(init, es) && GoodChild(Start(mock, init), es)
    ensures var n := Count(Exec(Start(mock, init), es).0.toClient, q);
            (n > 0 ==> q < SEQ_BASE)
            && n <= 2
            && (n == 2 <==> es != []
                            && Twice(Exec(Start(mock, init), es[..|es| - 1]).0, es[|es| - 1], ChildAnswered(es[..|es| - 1]), q))
  {
    var s0 := Start(mock, init);
    if es != [] {
      hide Books, Lifecycle, Step, Start, Enabled, FreshRequest, FreshAnswer, Answer, Count, Asked, Twice;
      var before, e := es[..|es| - 1], es[|es| - 1];
      BooksBalance(mock, init, before);
      LifecycleHolds(mock, init, before);
      DisciplineStep(Exec(s0, before).0, e, ClientSeqs(init, before), ChildAnswered(before), q);
    }
  }

  lemma DisciplineStep(s: State, e: Event, clients: set<int>, answered: set<int>, q: int)
    requires Lifecycle(s) && Books(s, clients, answered) && Enabled(s, e)
    requires FreshRequest(clients, e) && FreshAnswer(Asked(s.toChild), answered, e)
    ensures var n := Count(Step(s, e).0.toClient, q);
            (n > 0 ==> q < SEQ_BASE) && n <= 2 && (n == 2 <==> Twice(s, e, answered, q))
  {
    Posted(s, e, q);
    BooksBound(s, clients, answered, q);
    hide Books, Lifecycle, Step, Enabled, FreshRequest, FreshAnswer, Answer, Count, Asked;
    if Answer(s, e) == Some(q) {
      AnswerFresh(s, e, clients, answered, q);
    } else if e.Deadline? && s.disconnectWait == Some(q) {
      DeadlineAnswers(s, e, q);
    }
  }

  lemma BooksBound(s: State, clients: set<int>, answered: set<int>, q: int)
    requires Books(s, clients, answered)
    ensures Count(s.toClient, q) <= 1 && (Count(s.toClient, q) > 0 ==> q < SEQ_BASE)
  {
    hide Count, Asked;
  }

  lemma DeadlineAnswers(s: State, e: Event, q: int)
    requires e.Deadline? && s.disconnectWait == Some(q)
    ensures Answer(s, e) == Some(q)
  {}

  function DisconnectFrame(q: int): Frame {
    Frame([], Some(Body(Some("request"), Some("disconnect"), None, Some(q), None, None, Unparsed(""))))
  }

  function ResponseFrame(q: int): Frame {
    Frame([], Some(Body(Some("response"), Some("disconnect"), None, None, Some(q), Some(true), Unparsed(""))))
  }

  /** A disconnect that lldb-dap answers without exiting before the deadline. */
  function WedgedRun(q: int): seq<Event> {
    [ClientFrame(DisconnectFrame(q), true), ChildFrame(ResponseFrame(q)), Deadline]
  }

  /** The second response does happen. */
  lemma AnsweredTwice(mock: bool, init: Frame, q: int)
    requires q < SEQ_BASE && (RequestSeq(init).Some? ==> RequestSeq(init).value < SEQ_BASE && RequestSeq(init).value != q)
    ensures var s0, es := Start(mock, init), WedgedRun(q);
            Legal(s0, es) && GoodClient(init, es) && GoodChild(s0, es) && Count(Exec(s0, es).0.toClient, q) == 2
  {
    var s0, es := Start(mock, init), WedgedRun(q);
    var request, response := Raw(DisconnectFrame(q)), Raw(ResponseFrame(q));
    assert es[..2][..1] == es[..1] && es[..1][..0] == [];
    assert Legal(s0, []) && Legal(s0, es[..1]);
    var s1 := s0.(toChild := [Raw(init), request], disconnectWait := Some(q));
    assert s0.toChild + [request] == [Raw(init), request];
    assert Exec(s0, es[..1]).0 == s1;
    assert Legal(s0, es[..2]);
    assert [] + [response] == [response];
    assert Exec(s0, es[..2]).0 == s1.(toClient := [response]);
    assert Legal(s0, es);
    WedgedProtocol(s0, init, q, es);
    CountShort(Exec(s0, es).0.toClient, q);
    hide Count, GoodChild, GoodClient, Legal;
    assert Exec(s0, es).0.toClient == [response, Built(SuccessResponse(q, DISCONNECT))];
  }

  lemma WedgedProtocol(s0: State, init: Frame, q: int, es: seq<Event>)
    requires q < SEQ_BASE && (RequestSeq(init).Some? ==> RequestSeq(init).value < SEQ_BASE && RequestSeq(init).value != q)
    requires es == WedgedRun(q) && Legal(s0, es) && Legal(s0, es[..1])
    requires Exec(s0, es[..1]).0.toChild == [Raw(init), Raw(DisconnectFrame(q))]
    ensures GoodClient(init, es) && GoodChild(s0, es)
  {
    assert es[..2][..1] == es[..1] && es[..1][..0] == [];
    assert GoodClient(init, []) && GoodClient(init, es[..1]) && GoodClient(init, es[..2]);
    AskedShort(Exec(s0, es[..1]).0.toChild);
    assert ChildAnswered([]) == {} && ChildAnswered(es[..1]) == {};
    hide Exec, Step, Legal;
    assert GoodChild(s0, []) && GoodChild(s0, es[..1]) && GoodChild(s0, es[..2]);
  }

  // -- launches ---------------------------------------------------------------

  function LaunchOf(e: Event): set<int> {
    if e.ClientFrame? && ClassifyClient(e.frame).Launch? then {ClassifyClient(e.frame).seqNo} else {}
  }

  /** Numbers of the launch requests. */
  function Launches(es: seq<Event>): set<int> {
    if es == [] then {} else Launches(es[..|es| - 1]) + LaunchOf(es[|es| - 1])
  }

  lemma LaunchesStep(s: State, e: Event, clients: set<int>, answered: set<int>, launches: set<int>)
    requires Books(s, clients, answered) && Enabled(s, e) && FreshRequest(clients, e)
    requires launches <= clients && launches !! Asked(s.toChild)
    ensures launches + LaunchOf(e) <= NewClients(clients, e)
    ensures launches + LaunchOf(e) !! Asked(Step(s, e).0.toChild)
  {
    hide Step, Asked, Count, Requests, RequestSeq, ClassifyClient;
    Posted(s, e, 0);
    AskedBy(s, e);
    var asked := Asked(Requests(s, e));
    forall q | q in launches ensures q !in asked {
      assert q in clients && q < SEQ_BASE;
    }
    if e.ClientFrame? {
      RequestNumber(e.frame);
      if RequestSeq(e.frame).Some? {
        BooksFresh(s, clients, answered, RequestSeq(e.frame).value);
      }
      assert LaunchOf(e) != {} ==> asked == {};
    }
    assert LaunchOf(e) !! Asked(s.toChild);
  }

  lemma {:induction false} LaunchesUnasked(mock: bool, init: Frame, es: seq<Event>)
    requires Legal(Start(mock, init), es) && GoodClient(init, es) && GoodChild(Start(mock, init), es)
    ensures Launches(es) <= ClientSeqs(init, es) && Launches(es) !! Asked(Exec(Start(mock, init), es).0.toChild)
  {
    if es != [] {
      hide Books, Lifecycle, Step, Start, Enabled, FreshRequest, FreshAnswer, Asked, LaunchOf;
      var before, e := es[..|es| - 1], es[|es| - 1];
      LaunchesUnasked(mock, init, before);
      BooksBalance(mock, init, before);
      LaunchesStep(Exec(Start(mock, init), before).0, e, ClientSeqs(init, before), ChildAnswered(before), Launches(before));
    }
  }

  /** Every launch is answered at most once, whatever becomes of it. */
  lemma LaunchAnsweredOnce(mock: bool, init: Frame, es: seq<Event>, q: int)
    requires Legal(Start(mock, init), es) && GoodClient(init, es) && GoodChild(Start(mock, init), es)
    requires q in Launches(es)
    ensures Count(Exec(Start(mock, init), es).0.toClient, q) <= 1
  {
    hide Lifecycle, Step, Start, Enabled, FreshRequest, FreshAnswer, Asked, Count;
    var before, e := es[..|es| - 1], es[|es| - 1];
    ResponseDiscipline(mock, init, es, q);
    LaunchesUnasked(mock, init, before);
    BooksBalance(mock, init, before);
  }

  /** A launch cancelled by a disconnect stays unanswered. */
  lemma CancelledLaunchUnanswered(mock: bool, init: Frame, es: seq<Event>, r: PipelineResult, claimed: bool, up: bool, up2: bool)
    requires Legal(Start(mock, init), es + [PipelineDone(r, claimed, up, up2)])
    requires GoodClient(init, es) && Legal(Start(mock, init), es) && GoodChild(Start(mock, init), es)
    requires Exec(Start(mock, init), es).0.pendingDisconnect.Some?
    ensures var e := PipelineDone(r, claimed, up, up2);
            var s, t := Exec(Start(mock, init), es).0, Exec(Start(mock, init), es + [e]).0;
            s.launchSeq.Some? && t.launchSeq == s.launchSeq && Count(t.toClient, s.launchSeq.value) == 0
            && Count(t.toClient, s.pendingDisconnect.value) == 1
  {
    var s0, e := Start(mock, init), PipelineDone(r, claimed, up, up2);
    var s := Exec(s0, es).0;
    assert (es + [e])[..|es + [e]| - 1] == es;
    LifecycleHolds(mock, init, es);
    LifecycleStep(s, e);
    BooksBalance(mock, init, es);
    Posted(s, e, s.launchSeq.value);
    Posted(s, e, s.pendingDisconnect.value);
    BooksBound(s, ClientSeqs(init, es), ChildAnswered(es), s.launchSeq.value);
    hide Count, Asked, Step, Start, Exec, GoodChild;
  }

  // -- endings ----------------------------------------------------------------

  lemma EndingSays(s: State, e: Event)
    requires Enabled(s, e)
    ensures var says := Says(s, e);
            if Step(s, e).1 == Continue then Successes(says) == 0 && Terminations(says) == 0
            else Successes(says) <= 1 && Terminations(says) <= 1
  {
    CountShort(Says(s, e), 0);
    if e.PipelineDone? && Step(s, e).1 == Continue {
      PipelineNumbers(s, e.result, e.claimed, e.up, e.up2);
    }
    if e.ClientFrame? && Step(s, e).1 == Continue {
      EndingClient(s, e.frame, e.up);
    }
    hide ClassifyClient, ClassifyChild, Successes, Terminations, OnClient, OnChild, OnPipelineDone;
  }

  lemma EndingClient(s: State, f: Frame, up: bool)
    requires OnClient(s, f, up).1 == Continue
    ensures match ClassifyClient(f)
            case Launch(_, config) => s.pipelineRunning || s.session.Some? || s.mock || config.Parsed?
            case Disconnect(_) => s.pipelineRunning || !s.sessionEnded
            case _ => true
  {
    hide ClassifyClient;
  }

  /** The proxy itself builds at most one disconnect success and at most one `terminated` event; either is among
      the last things it says, because it ends the loop. */
  lemma {:induction false} EndingsOnce(mock: bool, init: Frame, es: seq<Event>)
    requires Legal(Start(mock, init), es)
    ensures var (s, a) := Exec(Start(mock, init), es);
            if a == Continue then Successes(s.toClient) == 0 && Terminations(s.toClient) == 0
            else Successes(s.toClient) <= 1 && Terminations(s.toClient) <= 1
  {
    var s0 := Start(mock, init);
    if es != [] {
      hide Step, Start, Enabled, Says, Successes, Terminations;
      var before, e := es[..|es| - 1], es[|es| - 1];
      var s := Exec(s0, before).0;
      EndingsOnce(mock, init, before);
      StepSends(s, e);
      EndingSays(s, e);
      EndingsAppend(s.toClient, Says(s, e));
    }
  }

  /** The proxy's own requests carry consecutive numbers from `SEQ_BASE` on. */
  predicate Consecutive(qs: seq<int>, next: int) {
    (forall k :: 0 <= k < |qs| ==> qs[k] == SEQ_BASE + k) && SEQ_BASE + |qs| <= next
  }

  lemma OwnSeqsStep(s: State, e: Event)
    requires Enabled(s, e)
    ensures var qs := OwnSeqs(Requests(s, e));
            (qs == [] || qs == [s.nextSeq] || qs == [s.nextSeq, s.nextSeq + 1])
            && Step(s, e).0.nextSeq >= s.nextSeq + |qs|
            && (Step(s, e).1 == Continue ==> Step(s, e).0.nextSeq == s.nextSeq + |qs|)
  {
    OwnShort(Requests(s, e));
    match e {
      case ClientFrame(f, up) =>
        NextClient(s, f, up);
        hide OnClient, ClassifyClient, Forwards, OwnSeqs;
      case ChildFrame(f) =>
        ChildNumbers(s, f);
        hide OnChild, OwnSeqs;
      case PipelineDone(r, claimed, up, up2) =>
        NextPipeline(s, r, claimed, up, up2);
        hide OnPipelineDone, OwnSeqs;
      case _ =>
        hide OwnSeqs;
    }
  }

  lemma NextLaunch(s: State, q: int, config: Arguments)
    ensures HandleLaunch(s, q, config).0.nextSeq == s.nextSeq
  {}

  lemma NextDisconnect(s: State, q: int, f: Frame, up: bool)
    ensures OnDisconnect(s, q, f, up).0.nextSeq == s.nextSeq
  {}

  lemma NextClient(s: State, f: Frame, up: bool)
    ensures OnClient(s, f, up).0.nextSeq == s.nextSeq
  {
    hide ClassifyClient, HandleLaunch, OnDisconnect;
    match ClassifyClient(f) {
      case Launch(q, config) => NextLaunch(s, q, config);
      case Disconnect(q) => NextDisconnect(s, q, f, up);
      case _ =>
    }
  }

  lemma NextAttach(s: State, app: App, up: bool, up2: bool)
    ensures var (t, a) := BeginAttach(s, app, up, up2);
            if s.mock then t.nextSeq == s.nextSeq + 1 && (a == Continue ==> up)
            else t.nextSeq == s.nextSeq + (if up then 2 else 1) && (a == Continue ==> up && up2)
  {}

  lemma NextEnd(s: State, r: PipelineResult)
    ensures r.Error? ==> FailLaunch(s, r.message).nextSeq == s.nextSeq
    ensures s.pendingDisconnect.Some? ==> WindDown(s, s.pendingDisconnect.value, r).nextSeq == s.nextSeq
  {}

  lemma ClaimNext(s: State, app: App, claimed: bool)
    ensures var t := ClaimSimulator(s, app, claimed); t.nextSeq == s.nextSeq && t.mock == s.mock
  {}

  lemma NextPipeline(s: State, r: PipelineResult, claimed: bool, up: bool, up2: bool)
    ensures var (t, a) := OnPipelineDone(s, r, claimed, up, up2);
            if s.pendingDisconnect.Some? || r.Error? then t.nextSeq == s.nextSeq
            else if s.mock then t.nextSeq == s.nextSeq + 1 && (a == Continue ==> up)
            else t.nextSeq == s.nextSeq + (if up then 2 else 1) && (a == Continue ==> up && up2)
  {
    hide BeginAttach, FailLaunch, WindDown, ClaimSimulator;
    NextEnd(s.(pipelineRunning := false), r);
    if r.Launched? {
      ClaimNext(s.(pipelineRunning := false), r.app, claimed);
    }
    if r.Launched? {
      NextAttach(ClaimSimulator(s.(pipelineRunning := false), r.app, claimed), r.app, up, up2);
    }
  }

  lemma OwnShort(outs: seq<Out>)
    requires |outs| <= 2
    ensures OwnSeqs(outs) == (if |outs| > 0 && outs[0].Built? && Asks(outs[0]).Some? then [Asks(outs[0]).value] else [])
                           + (if |outs| > 1 && outs[1].Built? && Asks(outs[1]).Some? then [Asks(outs[1]).value] else [])
  {
    hide Asks;
  }

  lemma {:induction false} OwnSeqsConsecutive(mock: bool, init: Frame, es: seq<Event>)
    requires Legal(Start(mock, init), es)
    ensures var (s, a) := Exec(Start(mock, init), es);
            Consecutive(OwnSeqs(s.toChild), s.nextSeq)
            && (a == Continue ==> s.nextSeq == SEQ_BASE + |OwnSeqs(s.toChild)|)
  {
    var s0 := Start(mock, init);
    if es == [] {
      OwnShort(s0.toChild);
    } else {
      hide Step, Start, Enabled, Requests, OwnSeqs, Consecutive;
      var before, e := es[..|es| - 1], es[|es| - 1];
      var s := Exec(s0, before).0;
      OwnSeqsConsecutive(mock, init, before);
      StepSends(s, e);
      OwnSeqsStep(s, e);
      OwnSeqsAppend(s.toChild, Requests(s, e));
      ConsecutiveGrows(OwnSeqs(s.toChild), OwnSeqs(Requests(s, e)), s.nextSeq, Step(s, e).0.nextSeq);
    }
  }

  lemma ConsecutiveGrows(a: seq<int>, b: seq<int>, next: int, next': int)
    requires Consecutive(a, next) && next == SEQ_BASE + |a| && next' >= next + |b|
    requires b == [] || b == [next] || b == [next, next + 1]
    ensures Consecutive(a + b, next')
  {}
}
