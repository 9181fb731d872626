/** Which disconnects are answered by the end of a run (dap/proxy.rs). */
module ProxyDisconnects {
  import opened Text
  import opened Peek
  import opened Proxy
  import opened ProxyRuns
  import opened ProxyTraffic
  import opened ProxyResponses

  predicate IsDisconnect(e: Event) {
    e.ClientFrame? && ClassifyClient(e.frame).Disconnect?
  }

  function NumberOf(e: Event): int
    requires IsDisconnect(e)
  {
    ClassifyClient(e.frame).seqNo
  }

  /** The client sent no other disconnect afterwards. */
  predicate NoneAfter(es: seq<Event>, i: nat) {
    forall j :: i < j < |es| ==> !IsDisconnect(es[j])
  }

  // -- met by a running pipeline ----------------------------------------------

  /** The disconnect `q` cancelled the pipeline; it is the one to be answered only if it is the `latest`. */
  predicate Waiting(s: State, q: int, latest: bool) {
    && Building(s) && s.pendingDisconnect.Some? && (s.pendingDisconnect == Some(q) <==> latest)
    && q !in Asked(s.toChild) && Count(s.toClient, q) == 0
  }

  /** Nothing but the pipeline's result answers it, and only if it is the latest. */
  lemma WaitingAnswer(s: State, e: Event, clients: set<int>, answered: set<int>, q: int, latest: bool)
    requires Lifecycle(s) && Books(s, clients, answered) && Enabled(s, e) && q in clients
    requires FreshRequest(clients, e) && FreshAnswer(Asked(s.toChild), answered, e) && Waiting(s, q, latest)
    ensures Answer(s, e) == Some(q) <==> e.PipelineDone? && latest
  {
    match e {
      case ClientFrame(f, _) =>
        RequestNumber(f);
        hide ClassifyClient, RequestSeq, Count, Asked, OnlyPrepared;
      case ChildFrame(f) =>
        ChildAnswers(f);
        hide ClassifyChild, FrameAnswers, Count, Asked, OnlyPrepared;
      case _ =>
        hide Count, Asked, OnlyPrepared;
    }
  }

  lemma ChildAnswers(f: Frame)
    ensures ClassifyChild(f).InternalResponse? ==> FrameAnswers(f) == Some(ClassifyChild(f).requestSeq)
    ensures ClassifyChild(f).ChildMalformed? ==> FrameAnswers(f).None?
  {}

  lemma WaitingClient(s: State, f: Frame, up: bool, q: int, latest: bool)
    requires Building(s) && s.pendingDisconnect.Some? && (s.pendingDisconnect == Some(q) <==> latest)
    requires ClassifyClient(f).Disconnect? ==> ClassifyClient(f).seqNo != q
    ensures var (t, a) := OnClient(s, f, up);
            a == Continue ==> Building(t) && t.pendingDisconnect.Some?
                              && (t.pendingDisconnect == Some(q) <==> latest && !ClassifyClient(f).Disconnect?)
  {
    hide ClassifyClient, HandleLaunch, OnDisconnect, Forward;
    match ClassifyClient(f) {
      case Launch(n, config) => WaitingLaunch(s, n, config);
      case Disconnect(n) => WaitingDisconnect(s, n, f, up);
      case Malformed =>
      case _ => WaitingForward(s, f, up);
    }
  }

  lemma WaitingLaunch(s: State, n: int, config: Arguments)
    requires Building(s)
    ensures var t := HandleLaunch(s, n, config).0;
            Building(t) && t.pendingDisconnect == s.pendingDisconnect
  {}

  lemma WaitingDisconnect(s: State, n: int, f: Frame, up: bool)
    requires Building(s)
    ensures var t := OnDisconnect(s, n, f, up).0;
            Building(t) && t.pendingDisconnect == Some(n)
  {}

  lemma WaitingForward(s: State, f: Frame, up: bool)
    requires Building(s)
    ensures var t := Forward(s, f, up).0;
            Building(t) && t.pendingDisconnect == s.pendingDisconnect
  {}

  lemma WaitingChild(s: State, f: Frame)
    requires Building(s)
    ensures OnChild(s, f).1 == Continue ==> Building(OnChild(s, f).0)
    ensures OnChild(s, f).0.pendingDisconnect == s.pendingDisconnect
  {
    hide ClassifyChild, TerminalEvent, AnswerLaunch;
  }

  lemma WaitingGoesOn(s: State, e: Event, q: int, latest: bool)
    requires Building(s) && s.pendingDisconnect.Some? && (s.pendingDisconnect == Some(q) <==> latest)
    requires Enabled(s, e) && Step(s, e).1 == Continue && (IsDisconnect(e) ==> NumberOf(e) != q)
    ensures var t := Step(s, e).0;
            Building(t) && t.pendingDisconnect.Some? && (t.pendingDisconnect == Some(q) <==> latest && !IsDisconnect(e))
  {
    hide OnClient, OnChild;
    match e {
      case ClientFrame(f, up) => WaitingClient(s, f, up, q, latest);
      case ChildFrame(f) => WaitingChild(s, f);
      case _ =>
    }
  }

  lemma WaitingUnasked(s: State, e: Event, clients: set<int>, q: int)
    requires Enabled(s, e) && q in clients && q < SEQ_BASE && s.nextSeq >= SEQ_BASE && FreshRequest(clients, e)
    ensures q !in Asked(Requests(s, e))
  {
    AskedBy(s, e);
    hide Asked, Requests, Forwards, RequestSeq;
  }

  lemma WaitingStep(s: State, e: Event, clients: set<int>, answered: set<int>, q: int, latest: bool)
    requires Lifecycle(s) && Books(s, clients, answered) && Enabled(s, e) && q in clients
    requires FreshRequest(clients, e) && FreshAnswer(Asked(s.toChild), answered, e) && Waiting(s, q, latest)
    ensures Step(s, e).1 == Continue ==> Waiting(Step(s, e).0, q, latest && !IsDisconnect(e))
    ensures Count(Step(s, e).0.toClient, q) == if e.PipelineDone? && latest then 1 else 0
  {
    WaitingAnswer(s, e, clients, answered, q, latest);
    Posted(s, e, q);
    if IsDisconnect(e) {
      RequestNumber(e.frame);
    }
    WaitingUnasked(s, e, clients, q);
    if e.PipelineDone? {
      ResultEnds(s, e);
    }
    hide Lifecycle, Step, Count, Asked, Answer, Requests, Enabled, ClassifyClient, RequestSeq, FreshAnswer;
    if Step(s, e).1 == Continue {
      WaitingGoesOn(s, e, q, latest);
    }
  }

  lemma ResultEnds(s: State, e: Event)
    requires Enabled(s, e) && s.pendingDisconnect.Some? && e.PipelineDone?
    ensures Step(s, e).1 != Continue
  {
    hide WindDown;
  }

  lemma MetPipeline(s: State, e: Event, clients: set<int>, answered: set<int>)
    requires Lifecycle(s) && Books(s, clients, answered) && Enabled(s, e) && FreshRequest(clients, e)
    requires IsDisconnect(e) && s.pipelineRunning
    ensures var q := NumberOf(e);
            Waiting(Step(s, e).0, q, true) && Step(s, e).1 == Continue && q in NewClients(clients, e)
  {
    var q := NumberOf(e);
    RequestNumber(e.frame);
    Posted(s, e, q);
    AskedBy(s, e);
    RunningIsBuilding(s);
    hide RequestSeq, Count, Asked, Requests;
    BooksFresh(s, clients, answered, q);
  }

  lemma RunningIsBuilding(s: State)
    requires Lifecycle(s) && s.pipelineRunning
    ensures Building(s)
  {}

  lemma NoneAfterSnoc(es: seq<Event>, i: nat)
    requires i < |es| - 1
    ensures NoneAfter(es, i) <==> NoneAfter(es[..|es| - 1], i) && !IsDisconnect(es[|es| - 1])
  {
    var before := es[..|es| - 1];
    assert forall j :: 0 <= j < |before| ==> before[j] == es[j];
    hide IsDisconnect;
  }

  /** A disconnect that met a running pipeline. */
  lemma {:induction false} CancelledBy(mock: bool, init: Frame, es: seq<Event>, i: nat)
    requires Legal(Start(mock, init), es) && GoodClient(init, es) && GoodChild(Start(mock, init), es)
    requires i < |es| && IsDisconnect(es[i]) && Legal(Start(mock, init), es[..i])
    requires Exec(Start(mock, init), es[..i]).0.pipelineRunning
    ensures var (s, a) := Exec(Start(mock, init), es);
            var q := NumberOf(es[i]);
            (a == Continue ==> Waiting(s, q, NoneAfter(es, i))) && q in ClientSeqs(init, es)
            && Count(s.toClient, q) == if es[|es| - 1].PipelineDone? && NoneAfter(es, i) then 1 else 0
  {
    hide Books, Lifecycle, Step, Start, Enabled, FreshRequest, FreshAnswer, Count, Asked, IsDisconnect, Waiting, NumberOf;
    var s0, before, e := Start(mock, init), es[..|es| - 1], es[|es| - 1];
    BooksBalance(mock, init, before);
    LifecycleHolds(mock, init, before);
    var s, clients, answered := Exec(s0, before).0, ClientSeqs(init, before), ChildAnswered(before);
    if i == |es| - 1 {
      MetPipeline(s, e, clients, answered);
      WaitsSilently(Step(s, e).0, NumberOf(e), e);
    } else {
      assert before[..i] == es[..i] && before[i] == es[i];
      CancelledBy(mock, init, before, i);
      NoneAfterSnoc(es, i);
      WaitingStep(s, e, clients, answered, NumberOf(es[i]), NoneAfter(before, i));
      assert e.PipelineDone? ==> !IsDisconnect(e) by { NoResult(e); }
    }
  }

  lemma WaitsSilently(s: State, q: int, e: Event)
    requires Waiting(s, q, true) && IsDisconnect(e)
    ensures Count(s.toClient, q) == 0 && !e.PipelineDone?
  {
    hide Count, Asked, Building;
  }

  lemma NoResult(e: Event)
    ensures e.PipelineDone? ==> !IsDisconnect(e)
  {}

  // -- forwarded to the child -------------------------------------------------

  /** A request the child has been asked is answered by the child, or by the deadline that waits for it. */
  lemma AskedAnswer(s: State, e: Event, clients: set<int>, answered: set<int>, q: int)
    requires Lifecycle(s) && Books(s, clients, answered) && Enabled(s, e) && FreshRequest(clients, e)
    requires q in Asked(s.toChild) && q < SEQ_BASE
    ensures Answer(s, e) == Some(q)
       <==> (e.ChildFrame? && FrameAnswers(e.frame) == Some(q)) || (e.Deadline? && s.disconnectWait == Some(q))
  {
    match e {
      case ClientFrame(f, _) =>
        RequestNumber(f);
        hide ClassifyClient, RequestSeq, Count, Asked, OnlyPrepared;
      case ChildFrame(f) =>
        ChildAnswers(f);
        InternalAreHigh(f);
        hide ClassifyChild, FrameAnswers, Count, Asked, OnlyPrepared;
      case _ =>
        hide Count, Asked, OnlyPrepared;
    }
  }

  lemma InternalAreHigh(f: Frame)
    ensures ClassifyChild(f).InternalResponse? ==> ClassifyChild(f).requestSeq >= SEQ_BASE
  {}

  lemma ForwardedStep(s: State, e: Event, clients: set<int>, answered: set<int>, q: int)
    requires Lifecycle(s) && Books(s, clients, answered) && Enabled(s, e) && FreshRequest(clients, e)
    requires FreshAnswer(Asked(s.toChild), answered, e) && q in Asked(s.toChild) && q < SEQ_BASE
    ensures q in Asked(Step(s, e).0.toChild)
    ensures Count(Step(s, e).0.toClient, q)
         == (if q in NewAnswered(answered, e) then 1 else 0)
            + (if e.Deadline? && s.disconnectWait == Some(q) then 1 else 0)
  {
    AskedAnswer(s, e, clients, answered, q);
    Posted(s, e, q);
    hide Step, Asked, Count, Answer, Requests, Enabled, Lifecycle, FrameAnswers;
    assert Count(s.toClient, q) <= 1 && (Count(s.toClient, q) == 1 <==> q in answered);
  }

  lemma ForwardedNow(s: State, e: Event, clients: set<int>, answered: set<int>)
    requires Books(s, clients, answered) && Enabled(s, e) && FreshRequest(clients, e)
    requires IsDisconnect(e) && !s.pipelineRunning
    ensures var q, (t, a) := NumberOf(e), Step(s, e);
            Count(t.toClient, q) == (if s.sessionEnded then 1 else 0) && q !in NewAnswered(answered, e) && q < SEQ_BASE
            && (e.up ==> q in Asked(t.toChild)) && (s.sessionEnded || !e.up ==> a != Continue)
  {
    var q := NumberOf(e);
    RequestNumber(e.frame);
    Posted(s, e, q);
    AskedBy(s, e);
    assert e.up ==> Forwards(s.pipelineRunning, e.frame);
    hide RequestSeq, Count, Asked, Requests;
    BooksFresh(s, clients, answered, q);
  }

  /** A disconnect that met no running pipeline. */
  lemma {:induction false} ForwardedBy(mock: bool, init: Frame, es: seq<Event>, i: nat)
    requires Legal(Start(mock, init), es) && GoodClient(init, es) && GoodChild(Start(mock, init), es)
    requires i < |es| && IsDisconnect(es[i]) && Legal(Start(mock, init), es[..i])
    requires !Exec(Start(mock, init), es[..i]).0.pipelineRunning
    ensures var (s, a) := Exec(Start(mock, init), es);
            var q, at, e := NumberOf(es[i]), Exec(Start(mock, init), es[..i]).0, es[|es| - 1];
            q < SEQ_BASE && (es[i].up ==> q in Asked(s.toChild))
            && (at.sessionEnded || !es[i].up ==> i == |es| - 1)
            && Count(s.toClient, q)
               == (if at.sessionEnded || q in ChildAnswered(es) then 1 else 0)
                  + (if i < |es| - 1 && e.Deadline? && Exec(Start(mock, init), es[..|es| - 1]).0.disconnectWait == Some(q)
                     then 1 else 0)
  {
    hide Books, Lifecycle, Step, Start, Enabled, FreshRequest, FreshAnswer, Count, Asked, IsDisconnect, NumberOf;
    var s0, before, e := Start(mock, init), es[..|es| - 1], es[|es| - 1];
    BooksBalance(mock, init, before);
    LifecycleHolds(mock, init, before);
    var s, clients, answered := Exec(s0, before).0, ClientSeqs(init, before), ChildAnswered(before);
    if i == |es| - 1 {
      ForwardedNow(s, e, clients, answered);
    } else {
      assert before[..i] == es[..i] && before[i] == es[i];
      ForwardedBy(mock, init, before, i);
      LegalPrefix(s0, es, i + 1);
      StepAt(s0, es, i);
      ForwardedThere(mock, init, es, i);
      ForwardedStep(s, e, clients, answered, NumberOf(es[i]));
    }
  }

  /** The loop went on after the disconnect, so it had been forwarded and the session had not ended. */
  lemma ForwardedThere(mock: bool, init: Frame, es: seq<Event>, i: nat)
    requires Legal(Start(mock, init), es) && GoodClient(init, es) && GoodChild(Start(mock, init), es)
    requires i < |es| - 1 && IsDisconnect(es[i]) && Legal(Start(mock, init), es[..i])
    requires !Exec(Start(mock, init), es[..i]).0.pipelineRunning
    ensures es[i].up && !Exec(Start(mock, init), es[..i]).0.sessionEnded
  {
    LegalPrefix(Start(mock, init), es, i + 1);
    StepAt(Start(mock, init), es, i);
    Goes(Exec(Start(mock, init), es[..i]).0, es[i]);
    hide Step, Start, Exec, Legal, GoodClient, GoodChild, IsDisconnect;
  }

  lemma Goes(s: State, e: Event)
    requires Enabled(s, e) && IsDisconnect(e) && !s.pipelineRunning && Step(s, e).1 == Continue
    ensures e.up && !s.sessionEnded
  {}

  lemma StepAt(s0: State, es: seq<Event>, i: nat)
    requires i < |es| && Legal(s0, es[..i]) && Legal(s0, es[..i + 1])
    ensures Enabled(Exec(s0, es[..i]).0, es[i]) && Exec(s0, es[..i + 1]) == Step(Exec(s0, es[..i]).0, es[i])
  {
    hide Step, Enabled;
    assert es[..i + 1][..i] == es[..i];
  }

  // -- in the end -------------------------------------------------------------

  /** How often each disconnect of a run is answered, exactly. One that met a running pipeline is answered once if
      the pipeline's result ended the run and the client had sent no other disconnect since, and never otherwise. One
      that came after the session had ended is answered once, by the proxy. Any other is answered as often as the
      child answered it, and once more if the deadline waiting for it ended the run. */
  lemma DisconnectAnswers(mock: bool, init: Frame, es: seq<Event>, i: nat)
    requires Legal(Start(mock, init), es) && GoodClient(init, es) && GoodChild(Start(mock, init), es)
    requires i < |es| && IsDisconnect(es[i]) && Legal(Start(mock, init), es[..i])
    ensures var at, q, last := Exec(Start(mock, init), es[..i]).0, NumberOf(es[i]), es[|es| - 1];
            Count(Exec(Start(mock, init), es).0.toClient, q)
            == if at.pipelineRunning then (if last.PipelineDone? && NoneAfter(es, i) then 1 else 0)
               else (if at.sessionEnded || q in ChildAnswered(es) then 1 else 0)
                    + (if i < |es| - 1 && last.Deadline?
                          && Exec(Start(mock, init), es[..|es| - 1]).0.disconnectWait == Some(q) then 1 else 0)
  {
    hide Start, Exec, Legal, Count, Asked, IsDisconnect, NumberOf, Waiting, GoodClient, GoodChild, NoneAfter;
    if Exec(Start(mock, init), es[..i]).0.pipelineRunning {
      CancelledBy(mock, init, es, i);
    } else {
      ForwardedBy(mock, init, es, i);
    }
  }
}
