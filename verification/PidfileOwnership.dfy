/** Any number of proxies over the pidfiles: who is superseded, and who may still end the app
    (util/pidfile.rs, dap/proxy.rs). Proxies are told apart by pid; each move is one atomic access. */
module PidfileOwnership {
  import opened Text
  import opened Pidfile
  import Proxy

  /** Before its pipeline delivered, after, after deciding about its app, and with the pidfile given up. */
  datatype Phase = Building | Launched | Decided | Gone

  /** `udid` is the `pidfile_udid` field: set by a successful claim only. */
  datatype Member = Member(phase: Phase, udid: Option<string>)

  /** `Spoiled` is a claim whose write failed, with what it left in the file. */
  datatype Act =
    | Signalled(who: nat, pid: int)
    | Claimed(who: nat, udid: string)
    | Spoiled(who: nat, udid: string, left: Option<string>)
    | Decision(who: nat, attached: bool, terminateOnStop: bool, exited: bool, terminate: bool)
    | Released(who: nat, udid: string)

  datatype World = World(files: map<string, string>, proxies: map<nat, Member>, log: seq<Act>)

  /** `KillOld` is the early signal before installing; `written` and `removed` say whether the file system obliged,
      and `left` is what a failed write leaves in the file. */
  datatype Move =
    | KillOld(who: nat, udid: string, running: map<int, string>)
    | ClaimSim(who: nat, udid: string, running: map<int, string>, written: bool, left: Option<string>)
    | Decide(who: nat, attached: bool, terminateOnStop: bool, exited: bool)
    | Release(who: nat, removed: bool)

  function FileOf(w: World, udid: string): Option<string> {
    if udid in w.files then Some(w.files[udid]) else None
  }

  predicate Enabled(w: World, m: Move) {
    && m.who in w.proxies
    && match m
       case KillOld(p, _, _) => w.proxies[p].phase != Gone
       case ClaimSim(p, _, _, _, _) => w.proxies[p].phase == Building
       case Decide(p, _, _, _) => w.proxies[p].phase == Building || w.proxies[p].phase == Launched
       case Release(p, _) => w.proxies[p].phase != Gone
  }

  function Signal(w: World, who: nat, udid: string, running: map<int, string>): seq<Act> {
    match Victim(FileOf(w, udid), who, running)
    case None => []
    case Some(pid) => [Signalled(who, pid)]
  }

  /** `Proxy::superseded`. */
  predicate IsSuperseded(w: World, p: nat)
    requires p in w.proxies
  {
    var udid := w.proxies[p].udid;
    udid.Some? && !StillOurs(FileOf(w, udid.value), p)
  }

  function WithFile(files: map<string, string>, udid: string, file: Option<string>): map<string, string> {
    if file.Some? then files[udid := file.value] else files - {udid}
  }

  function Step(w: World, m: Move): World
    requires Enabled(w, m)
  {
    match m
    case KillOld(p, udid, running) => w.(log := w.log + Signal(w, p, udid, running))
    case ClaimSim(p, udid, running, written, left) =>
      if written then
        World(w.files[udid := PidLine(p)], w.proxies[p := Member(Launched, Some(udid))],
              w.log + Signal(w, p, udid, running) + [Claimed(p, udid)])
      else
        World(WithFile(w.files, udid, left), w.proxies[p := Member(Launched, None)],
              w.log + Signal(w, p, udid, running) + [Spoiled(p, udid, left)])
    case Decide(p, attached, terminateOnStop, exited) =>
      World(w.files, w.proxies[p := Member(Decided, w.proxies[p].udid)],
            w.log + [Decision(p, attached, terminateOnStop, exited,
                              Proxy.ShouldTerminate(attached, terminateOnStop, IsSuperseded(w, p), exited))])
    case Release(p, removed) =>
      var udid := w.proxies[p].udid;
      if udid.None? then w.(proxies := w.proxies[p := Member(Gone, None)])
      else
        World(if removed then WithFile(w.files, udid.value, AfterRemove(FileOf(w, udid.value), p)) else w.files,
              w.proxies[p := Member(Gone, udid)], w.log + [Released(p, udid.value)])
  }

  /** Distinct proxies that have only started, over whatever files an earlier crash left behind. */
  predicate Init(w: World) {
    w.log == [] && forall p :: p in w.proxies ==> p <= U32_MAX && w.proxies[p] == Member(Building, None)
  }

  function Exec(w: World, ms: seq<Move>): World
    requires Legal(w, ms)
    decreases |ms|, 1
  {
    if ms == [] then w else Step(Exec(w, ms[..|ms| - 1]), ms[|ms| - 1])
  }

  predicate Legal(w: World, ms: seq<Move>)
    decreases |ms|, 0
  {
    ms == [] || (Legal(w, ms[..|ms| - 1]) && Enabled(Exec(w, ms[..|ms| - 1]), ms[|ms| - 1]))
  }

  // -- ownership --------------------------------------------------------------

  /** A write of the simulator's file, complete or failed. */
  predicate Writes(a: Act, udid: string) {
    (a.Claimed? || a.Spoiled?) && a.udid == udid
  }

  function LeftBy(a: Act): Option<string>
    requires a.Claimed? || a.Spoiled?
  {
    if a.Claimed? then Some(PidLine(a.who)) else a.left
  }

  /** What the write left reads as `p`'s own: its own line, or a failed write that leaves just its pid. */
  predicate Names(a: Act, p: nat)
    requires a.Claimed? || a.Spoiled?
  {
    StillOurs(LeftBy(a), p)
  }

  function LastWrite(log: seq<Act>, udid: string): (a: Option<Act>)
    ensures a.Some? ==> Writes(a.value, udid)
  {
    if log == [] then None
    else if Writes(log[|log| - 1], udid) then Some(log[|log| - 1])
    else LastWrite(log[..|log| - 1], udid)
  }

  /** Another proxy has claimed the simulator since `p` did. */
  ghost predicate ClaimedSince(log: seq<Act>, p: nat, udid: string) {
    exists i, j :: 0 <= i < j < |log| && log[i] == Claimed(p, udid)
                   && log[j].Claimed? && log[j].udid == udid && log[j].who != p
  }

  /** After `p` claimed the simulator its file was written, the last time with something that does not name `p`. */
  ghost predicate LostSince(log: seq<Act>, p: nat, udid: string) {
    exists i, j :: 0 <= i < j < |log| && log[i] == Claimed(p, udid) && Writes(log[j], udid) && !Names(log[j], p)
                   && forall k :: j < k < |log| ==> !Writes(log[k], udid)
  }

  /** A proxy that has given its own file up, and would remove one with this text. */
  predicate Remover(w: World, r: nat, file: Option<string>) {
    r in w.proxies && w.proxies[r].phase == Gone && ReadPid(file) == Some(AsI32(r))
  }

  /** What the last writer left is in the file, until a proxy it names gives it up. */
  ghost predicate FileRight(w: World, udid: string) {
    var a := LastWrite(w.log, udid);
    a.Some? ==>
      FileOf(w, udid) == LeftBy(a.value)
      || (udid !in w.files && exists r: nat :: Remover(w, r, LeftBy(a.value)))
  }

  /** The log and the proxies tell the same story. */
  ghost predicate Consistent(w: World) {
    && (forall p :: p in w.proxies ==>
          p <= U32_MAX && (w.proxies[p].phase == Building ==> w.proxies[p].udid.None?)
          && (w.proxies[p].udid.Some? ==> Claimed(p, w.proxies[p].udid.value) in w.log))
    && (forall k :: 0 <= k < |w.log| && w.log[k].Claimed? ==>
          w.log[k].who in w.proxies && w.proxies[w.log[k].who].udid == Some(w.log[k].udid))
    && (forall i, j :: 0 <= i < j < |w.log| && w.log[i].Claimed? && w.log[j].Claimed? ==> w.log[i].who != w.log[j].who)
  }

  ghost predicate Owned(w: World) {
    forall udid :: FileRight(w, udid)
  }

  lemma LastWriteAppend(log: seq<Act>, a: Act, udid: string)
    ensures LastWrite(log + [a], udid) == if Writes(a, udid) then Some(a) else LastWrite(log, udid)
  {
    assert (log + [a])[..|log|] == log;
  }

  lemma LastWriteSignal(w: World, p: nat, udid: string, running: map<int, string>, other: string)
    ensures LastWrite(w.log + Signal(w, p, udid, running), other) == LastWrite(w.log, other)
  {
    hide Victim;
    match Victim(FileOf(w, udid), p, running)
    case None => assert w.log + [] == w.log;
    case Some(pid) => LastWriteAppend(w.log, Signalled(p, pid), other);
  }

  /** What a claim writes in the log. */
  function Write(m: Move): Act
    requires m.ClaimSim?
  {
    if m.written then Claimed(m.who, m.udid) else Spoiled(m.who, m.udid, m.left)
  }

  /** A claim, written or not, by what it leaves. */
  lemma ClaimStep(w: World, m: Move)
    requires m.ClaimSim? && Enabled(w, m)
    ensures Step(w, m) == World(WithFile(w.files, m.udid, LeftBy(Write(m))),
                                w.proxies[m.who := Member(Launched, if m.written then Some(m.udid) else None)],
                                w.log + Signal(w, m.who, m.udid, m.running) + [Write(m)])
  {
    hide PidLine, Signal;
  }

  lemma LastWriteExtends(w: World, m: Move, udid: string)
    requires Enabled(w, m)
    ensures LastWrite(Step(w, m).log, udid)
         == if m.ClaimSim? && m.udid == udid then Some(Write(m)) else LastWrite(w.log, udid)
  {
    hide Signal, IsSuperseded, WithFile, LastWrite;
    match m {
      case KillOld(p, u, running) => LastWriteSignal(w, p, u, running, udid);
      case ClaimSim(p, u, running, _, _) =>
        LastWriteSignal(w, p, u, running, udid);
        LastWriteAppend(w.log + Signal(w, p, u, running), Write(m), udid);
      case Decide(p, a, t, x) =>
        LastWriteAppend(w.log, Decision(p, a, t, x, Proxy.ShouldTerminate(a, t, IsSuperseded(w, p), x)), udid);
      case Release(p, removed) =>
        if w.proxies[p].udid.Some? {
          LastWriteAppend(w.log, Released(p, w.proxies[p].udid.value), udid);
        }
    }
  }

  /** Where the last writer wrote. */
  lemma {:induction false} WritePoint(log: seq<Act>, udid: string) returns (k: nat)
    ensures match LastWrite(log, udid)
            case None => forall j :: 0 <= j < |log| ==> !Writes(log[j], udid)
            case Some(a) => k < |log| && log[k] == a && forall j :: k < j < |log| ==> !Writes(log[j], udid)
  {
    k := 0;
    if log != [] {
      if Writes(log[|log| - 1], udid) {
        k := |log| - 1;
      } else {
        k := WritePoint(log[..|log| - 1], udid);
      }
    }
  }

  lemma FileStep(w: World, m: Move, udid: string)
    requires Enabled(w, m) && FileRight(w, udid)
    ensures FileRight(Step(w, m), udid)
  {
    LastWriteExtends(w, m, udid);
    hide LastWrite;
    if m.Release? {
      FileRelease(w, m, udid);
    } else if m.ClaimSim? && m.udid == udid {
      FileClaimed(w, m);
    } else {
      FileOther(w, m, udid);
    }
  }

  lemma FileClaimed(w: World, m: Move)
    requires Enabled(w, m) && m.ClaimSim?
    ensures FileOf(Step(w, m), m.udid) == LeftBy(Write(m))
  {
    hide Signal, PidLine;
  }

  lemma FileOther(w: World, m: Move, udid: string)
    requires Enabled(w, m) && FileRight(w, udid) && !m.Release? && (m.ClaimSim? ==> m.udid != udid)
    requires LastWrite(Step(w, m).log, udid) == LastWrite(w.log, udid)
    ensures FileRight(Step(w, m), udid)
  {
    hide LastWrite, Signal, IsSuperseded, PidLine, Proxy.ShouldTerminate, LeftBy, ReadPid, AsI32;
    var v := Step(w, m);
    assert FileOf(v, udid) == FileOf(w, udid);
    var a := LastWrite(w.log, udid);
    if a.Some? && FileOf(w, udid) != LeftBy(a.value) {
      var r: nat :| Remover(w, r, LeftBy(a.value));
      assert Remover(v, r, LeftBy(a.value));
    }
  }

  /** A release by a proxy that the text does not name leaves it alone. */
  lemma FileRelease(w: World, m: Move, udid: string)
    requires Enabled(w, m) && FileRight(w, udid) && m.Release?
    requires LastWrite(Step(w, m).log, udid) == LastWrite(w.log, udid)
    ensures FileRight(Step(w, m), udid)
  {
    hide LastWrite, PidLine, LeftBy, ReadPid, AsI32;
    var v := Step(w, m);
    var a := LastWrite(w.log, udid);
    if a.Some? {
      if FileOf(w, udid) != LeftBy(a.value) {
        var r: nat :| Remover(w, r, LeftBy(a.value));
        assert Remover(v, r, LeftBy(a.value));
      } else if FileOf(v, udid) != LeftBy(a.value) {
        assert Remover(v, m.who, LeftBy(a.value));
      }
    }
  }

  lemma ConsistentStep(w: World, m: Move)
    requires Enabled(w, m) && Consistent(w)
    ensures Consistent(Step(w, m))
  {
    hide Victim, IsSuperseded, WithFile, AfterRemove, Proxy.ShouldTerminate, PidLine;
  }

  lemma {:induction false} InvariantHolds(w: World, ms: seq<Move>)
    requires Init(w) && Legal(w, ms)
    ensures Consistent(Exec(w, ms)) && Owned(Exec(w, ms))
  {
    if ms != [] {
      hide Step, Enabled, Consistent, FileRight, Init;
      var before := Exec(w, ms[..|ms| - 1]);
      InvariantHolds(w, ms[..|ms| - 1]);
      ConsistentStep(before, ms[|ms| - 1]);
      forall udid ensures FileRight(Exec(w, ms), udid) {
        FileStep(before, ms[|ms| - 1], udid);
      }
    }
  }

  // -- who is superseded ------------------------------------------------------

  lemma OwnName(p: nat, udid: string)
    requires p <= U32_MAX
    ensures Names(Claimed(p, udid), p)
  {
    LineRead(p, p);
    hide StillOurs, PidLine;
  }

  /** A proxy that claimed a simulator has lost it exactly when the last write there does not name it. */
  lemma LastOrLost(w: World, p: nat, udid: string)
    requires Consistent(w) && Claimed(p, udid) in w.log
    ensures LastWrite(w.log, udid).Some?
    ensures LostSince(w.log, p, udid) <==> !Names(LastWrite(w.log, udid).value, p)
  {
    var i :| 0 <= i < |w.log| && w.log[i] == Claimed(p, udid);
    var k := WritePoint(w.log, udid);
    OwnName(p, udid);
    hide LastWrite, Names;
    assert Writes(w.log[i], udid);
    var a := LastWrite(w.log, udid).value;
    assert !Names(a, p) ==> i < k;
    if LostSince(w.log, p, udid) {
      var i', j :| 0 <= i' < j < |w.log| && w.log[i'] == Claimed(p, udid) && Writes(w.log[j], udid) && !Names(w.log[j], p)
                   && forall n :: j < n < |w.log| ==> !Writes(w.log[n], udid);
      assert j == k;
    }
  }

  /** In every run: a proxy that claimed a simulator and has not given it up reads itself superseded exactly when the
      simulator's file was written since, by a claim or by one that failed, and the last write does not name it. */
  lemma SupersededIff(w: World, ms: seq<Move>, p: nat)
    requires Init(w) && Legal(w, ms)
    requires var v := Exec(w, ms);
             p in v.proxies && v.proxies[p].udid.Some? && v.proxies[p].phase != Gone
    ensures var v := Exec(w, ms);
            IsSuperseded(v, p) <==> LostSince(v.log, p, v.proxies[p].udid.value)
  {
    InvariantHolds(w, ms);
    hide Exec, Legal, Init;
    var v := Exec(w, ms);
    var udid := v.proxies[p].udid.value;
    LastOrLost(v, p, udid);
    assert FileRight(v, udid);
    hide LostSince, Consistent, Owned, LastWrite, StillOurs, ReadPid, AsI32, LeftBy;
    var a := LastWrite(v.log, udid).value;
    if FileOf(v, udid) != LeftBy(a) {
      var r: nat :| Remover(v, r, LeftBy(a));
      assert r <= U32_MAX && p <= U32_MAX by { SmallPids(v, r); SmallPids(v, p); }
      if Names(a, p) {
        OneReader(LeftBy(a), p, r);
      }
      assert !StillOurs(None, p) by { NobodysFile(p); }
    }
  }

  lemma SmallPids(w: World, p: nat)
    requires Consistent(w) && p in w.proxies
    ensures p <= U32_MAX
  {}

  lemma NobodysFile(p: nat)
    ensures !StillOurs(None, p)
  {}

  /** As long as no write fails, losing a simulator is another proxy's claim. */
  lemma LostIsClaimed(w: World, p: nat, udid: string)
    requires Consistent(w) && Claimed(p, udid) in w.log
    requires forall k :: 0 <= k < |w.log| && w.log[k].Spoiled? ==> w.log[k].udid != udid
    ensures LostSince(w.log, p, udid) <==> ClaimedSince(w.log, p, udid)
  {
    LastOrLost(w, p, udid);
    var k := WritePoint(w.log, udid);
    var q := w.log[k].who;
    assert q in w.proxies && w.log[k] == Claimed(q, udid);
    LineRead(q, p);
    hide LastWrite, StillOurs, PidLine, LostSince;
    var i :| 0 <= i < |w.log| && w.log[i] == Claimed(p, udid);
    assert Writes(w.log[i], udid);
    if ClaimedSince(w.log, p, udid) {
      var i', j :| 0 <= i' < j < |w.log| && w.log[i'] == Claimed(p, udid)
                   && w.log[j].Claimed? && w.log[j].udid == udid && w.log[j].who != p;
      assert Writes(w.log[j], udid) && j <= k;
    }
  }

  /** So with no failed write: exactly when another proxy has claimed the simulator since. */
  lemma SupersededByClaim(w: World, ms: seq<Move>, p: nat)
    requires Init(w) && Legal(w, ms)
    requires var v := Exec(w, ms);
             p in v.proxies && v.proxies[p].udid.Some? && v.proxies[p].phase != Gone
             && forall k :: 0 <= k < |v.log| && v.log[k].Spoiled? ==> Some(v.log[k].udid) != v.proxies[p].udid
    ensures var v := Exec(w, ms);
            IsSuperseded(v, p) <==> ClaimedSince(v.log, p, v.proxies[p].udid.value)
  {
    SupersededIff(w, ms, p);
    InvariantHolds(w, ms);
    hide Exec, Legal, Init, LostSince, ClaimedSince, Owned, IsSuperseded;
    LostIsClaimed(Exec(w, ms), p, Exec(w, ms).proxies[p].udid.value);
  }

  /** The last claimer's file is never taken from it: unless a failed write has come since, it names that proxy until
      the proxy itself gives it up. */
  lemma OwnerKeepsFile(w: World, ms: seq<Move>, q: nat, udid: string)
    requires Init(w) && Legal(w, ms) && LastWrite(Exec(w, ms).log, udid) == Some(Claimed(q, udid))
    ensures var v := Exec(w, ms);
            q in v.proxies && (v.proxies[q].phase != Gone ==> FileOf(v, udid) == Some(PidLine(q)))
  {
    InvariantHolds(w, ms);
    var v := Exec(w, ms);
    var k := WritePoint(v.log, udid);
    hide Exec, Legal, Init, LastWrite, PidLine, StillOurs, ReadPid, AsI32;
    assert q in v.proxies && FileRight(v, udid);
    if FileOf(v, udid) != Some(PidLine(q)) {
      var r: nat :| Remover(v, r, Some(PidLine(q)));
      LineRead(q, r);
      assert AfterRemove(Some(PidLine(q)), r).None?;
    }
  }

  // -- decisions --------------------------------------------------------------

  lemma LogGrows(w: World, m: Move)
    requires Enabled(w, m)
    ensures w.log <= Step(w, m).log
    ensures forall k :: |w.log| <= k < |Step(w, m).log| && Step(w, m).log[k].Decision? ==>
              m.Decide? && k == |w.log| && |Step(w, m).log| == k + 1
  {
    hide Victim, IsSuperseded, WithFile, AfterRemove, PidLine, Proxy.ShouldTerminate;
  }

  /** `p` has lost some simulator that it claimed. */
  ghost predicate Succeeded(log: seq<Act>, p: nat) {
    exists udid :: LostSince(log, p, udid)
  }

  lemma DecisionNow(w: World, ms: seq<Move>, m: Move)
    requires Init(w) && Legal(w, ms) && Enabled(Exec(w, ms), m) && m.Decide?
    ensures IsSuperseded(Exec(w, ms), m.who) <==> Succeeded(Exec(w, ms).log, m.who)
  {
    InvariantHolds(w, ms);
    var v := Exec(w, ms);
    if v.proxies[m.who].udid.Some? {
      SupersededIff(w, ms, m.who);
    }
    hide Exec, Legal, Init, FileRight, LastWrite, Names, StillOurs;
    if Succeeded(v.log, m.who) {
      var udid :| LostSince(v.log, m.who, udid);
      assert v.proxies[m.who].udid == Some(udid);
    }
  }

  /** Every teardown decision in every run ends the app exactly when the debuggee has not exited, the app was never
      attached or is to stop with the session, and the decider had not lost the simulator. */
  lemma {:induction false} DecisionExact(w: World, ms: seq<Move>, j: nat)
    requires Init(w) && Legal(w, ms) && j < |Exec(w, ms).log| && Exec(w, ms).log[j].Decision?
    ensures var log := Exec(w, ms).log;
            var d := log[j];
            d.terminate <==> !d.exited && (!d.attached || d.terminateOnStop) && !Succeeded(log[..j], d.who)
  {
    if ms != [] {
      var before, m := ms[..|ms| - 1], ms[|ms| - 1];
      var v := Exec(w, before);
      LogGrows(v, m);
      if j < |v.log| {
        DecisionExact(w, before, j);
        assert Exec(w, ms).log[..j] == v.log[..j];
      } else {
        DecisionNow(w, before, m);
        assert Exec(w, ms).log[..j] == v.log;
      }
      hide Succeeded, IsSuperseded;
    }
  }

  /** The last write before the decision at `j` is one that failed after the claim at `k`, and it names `p`. */
  ghost predicate HandedBack(log: seq<Act>, k: nat, j: nat, udid: string, p: nat)
    requires k < j < |log|
  {
    exists l :: k < l < j && log[l].Spoiled? && log[l].udid == udid && Names(log[l], p)
                && forall n :: l < n < j ==> !Writes(log[n], udid)
  }

  /** So a decision taken after a successor's claim ends the app only if the last write before it was one that failed
      and happens to name the decider, and exactly then if its flags say so. */
  lemma TerminateAfterSuccessor(w: World, ms: seq<Move>, i: nat, k: nat, j: nat, udid: string)
    requires Init(w) && Legal(w, ms)
    requires var log := Exec(w, ms).log;
             i < k < j < |log| && log[j].Decision? && log[i] == Claimed(log[j].who, udid)
             && log[k].Claimed? && log[k].udid == udid && log[k].who != log[j].who
    ensures var log := Exec(w, ms).log;
            var d := log[j];
            d.terminate
            <==> !d.exited && (!d.attached || d.terminateOnStop) && HandedBack(log, k, j, udid, d.who)
  {
    DecisionExact(w, ms, j);
    InvariantHolds(w, ms);
    var log := Exec(w, ms).log;
    hide Exec, Legal, Init;
    SucceededIff(Exec(w, ms), i, k, j, udid);
    hide Names, Succeeded, Consistent, HandedBack;
  }

  lemma SucceededIff(w: World, i: nat, k: nat, j: nat, udid: string)
    requires Consistent(w) && i < k < j < |w.log| && w.log[i] == Claimed(w.log[j].who, udid)
    requires w.log[k].Claimed? && w.log[k].udid == udid && w.log[k].who != w.log[j].who
    ensures !Succeeded(w.log[..j], w.log[j].who) <==> HandedBack(w.log, k, j, udid, w.log[j].who)
  {
    var p := w.log[j].who;
    var l := WriteBefore(w.log, k, j, udid);
    LastIsReader(w.log, p, udid, i, l, j);
    OneClaim(w, i, j, udid);
    if w.log[l].Claimed? {
      OthersClaim(w, i, l);
    }
    LastIsBack(w.log, k, l, j, udid, p);
    hide Writes, Names, LostSince, Consistent, HandedBack;
    assert Succeeded(w.log[..j], p) <==> LostSince(w.log[..j], p, udid);
  }

  lemma {:induction false} WriteBefore(log: seq<Act>, k: nat, j: nat, udid: string) returns (l: nat)
    requires k < j <= |log| && Writes(log[k], udid)
    ensures k <= l < j && Writes(log[l], udid) && forall n :: l < n < j ==> !Writes(log[n], udid)
  {
    if Writes(log[j - 1], udid) {
      l := j - 1;
    } else {
      l := WriteBefore(log, k, j - 1, udid);
    }
  }

  lemma LastIsReader(log: seq<Act>, p: nat, udid: string, i: nat, l: nat, j: nat)
    requires i < l < j <= |log| && log[i] == Claimed(p, udid) && Writes(log[l], udid)
    requires forall n :: l < n < j ==> !Writes(log[n], udid)
    ensures LostSince(log[..j], p, udid) <==> !Names(log[l], p)
  {
    hide Names;
    var before := log[..j];
    assert before[i] == log[i] && before[l] == log[l];
    if LostSince(before, p, udid) {
      var i', m :| 0 <= i' < m < |before| && before[i'] == Claimed(p, udid) && Writes(before[m], udid)
                   && !Names(before[m], p) && forall n :: m < n < |before| ==> !Writes(before[n], udid);
      assert m == l;
    }
  }

  /** A proxy claims one simulator only. */
  lemma OneClaim(w: World, i: nat, j: nat, udid: string)
    requires Consistent(w) && i < j <= |w.log| && w.log[i].Claimed? && w.log[i].udid == udid
    ensures forall other :: LostSince(w.log[..j], w.log[i].who, other) ==> other == udid
  {
    hide Names, Writes;
    forall other | LostSince(w.log[..j], w.log[i].who, other) ensures other == udid {
      var n :| 0 <= n < j && w.log[..j][n] == Claimed(w.log[i].who, other);
      assert w.log[n] == Claimed(w.log[i].who, other);
    }
  }

  lemma LastIsBack(log: seq<Act>, k: nat, l: nat, j: nat, udid: string, p: nat)
    requires k <= l < j < |log| && log[k].Claimed? && Writes(log[l], udid)
    requires forall n :: l < n < j ==> !Writes(log[n], udid)
    requires log[l].Claimed? ==> !Names(log[l], p)
    ensures HandedBack(log, k, j, udid, p) <==> Names(log[l], p)
  {
    hide Names;
    if HandedBack(log, k, j, udid, p) {
      var m :| k < m < j && log[m].Spoiled? && log[m].udid == udid && Names(log[m], p)
               && forall n :: m < n < j ==> !Writes(log[n], udid);
      assert Writes(log[m], udid);
    }
  }

  lemma OthersClaim(w: World, i: nat, l: nat)
    requires Consistent(w) && i < l < |w.log| && w.log[i].Claimed? && w.log[l].Claimed?
    ensures !Names(w.log[l], w.log[i].who)
  {
    LineRead(w.log[l].who, w.log[i].who);
    hide StillOurs, PidLine;
  }

  /** So unless a failed write names the decider, no decision taken after a successor's claim ends the app. */
  lemma NoTerminateAfterSuccessor(w: World, ms: seq<Move>, i: nat, k: nat, j: nat, udid: string)
    requires Init(w) && Legal(w, ms)
    requires var log := Exec(w, ms).log;
             i < k < j < |log| && log[j].Decision? && log[i] == Claimed(log[j].who, udid)
             && log[k].Claimed? && log[k].udid == udid && log[k].who != log[j].who
             && forall l :: k < l < j && log[l].Spoiled? && log[l].udid == udid ==> !Names(log[l], log[j].who)
    ensures !Exec(w, ms).log[j].terminate
  {
    TerminateAfterSuccessor(w, ms, i, k, j, udid);
    hide Exec, Legal, Init, Names;
  }

  /** Two proxies claim a simulator in turn, and the claim of a third fails. */
  function Claims(p: nat, q: nat, r: nat, udid: string, left: Option<string>): seq<Move> {
    [ClaimSim(p, udid, map[], true, None), ClaimSim(q, udid, map[], true, None), ClaimSim(r, udid, map[], false, left)]
  }

  lemma ThreeClaims(w: World, p: nat, q: nat, r: nat, udid: string, left: Option<string>)
    requires p != q && q != r && p != r && {p, q, r} <= w.proxies.Keys
    requires w.proxies[p].phase == w.proxies[q].phase == w.proxies[r].phase == Building
    ensures Legal(w, Claims(p, q, r, udid, left))
    ensures var v := Exec(w, Claims(p, q, r, udid, left));
            FileOf(v, udid) == left && p in v.proxies && v.proxies[p] == Member(Launched, Some(udid))
            && v.log == w.log + [Claimed(p, udid), Claimed(q, udid), Spoiled(r, udid, left)]
  {
    var m0, m1 := ClaimSim(p, udid, map[], true, None), ClaimSim(q, udid, map[], true, None);
    var m2 := ClaimSim(r, udid, map[], false, left);
    hide WithFile, LeftBy, FileOf, Exec, Legal;
    Start(w);
    ClaimsNext(w, [], m0);
    assert [] + [m0] == [m0];
    ClaimsNext(w, [m0], m1);
    assert [m0] + [m1] == [m0, m1];
    ClaimsNext(w, [m0, m1], m2);
    assert [m0, m1] + [m2] == Claims(p, q, r, udid, left);
    LeftSpoiled(r, udid, left);
  }

  /** Such runs: the owner `p` is succeeded by `q`, the claim of a third proxy fails and leaves text that names `p`,
      and `p` takes the simulator for its own and ends the app. */
  lemma HandedBackEnds(w: World, p: nat, q: nat, r: nat, udid: string, left: Option<string>)
    requires Init(w) && p != q && q != r && p != r && {p, q, r} <= w.proxies.Keys && StillOurs(left, p)
    ensures var ms := Claims(p, q, r, udid, left) + [Decide(p, false, true, false)];
            Legal(w, ms)
            && Exec(w, ms).log == [Claimed(p, udid), Claimed(q, udid), Spoiled(r, udid, left),
                                   Decision(p, false, true, false, true)]
  {
    var ms, m := Claims(p, q, r, udid, left), Decide(p, false, true, false);
    ThreeClaims(w, p, q, r, udid, left);
    hide StillOurs, Exec, Legal, Step, Init, Enabled, Claims;
    Decides(Exec(w, ms), m);
    Snoc(w, ms, m);
  }

  /** As with half a line: the pid 42 cut short names the proxy 4. */
  lemma HalfALine()
    ensures "4" < PidLine(42) && StillOurs(Some("4"), 4)
  {
    assert Trim("4") == "4" && DigitsValue("4") == 4 && AllDigits("4");
    assert Decimal(42) == Decimal(4) + "2";
  }

  lemma LeftSpoiled(r: nat, udid: string, left: Option<string>)
    ensures LeftBy(Spoiled(r, udid, left)) == left
  {}

  lemma ClaimsNext(w: World, ms: seq<Move>, m: Move)
    requires Legal(w, ms) && m.ClaimSim? && m.running == map[]
    requires m.who in Exec(w, ms).proxies && Exec(w, ms).proxies[m.who].phase == Building
    ensures Legal(w, ms + [m])
    ensures var v, u := Exec(w, ms), Exec(w, ms + [m]);
            FileOf(u, m.udid) == LeftBy(Write(m)) && u.log == v.log + [Write(m)]
            && u.proxies == v.proxies[m.who := Member(Launched, if m.written then Some(m.udid) else None)]
  {
    var v := Exec(w, ms);
    assert Enabled(v, m);
    Snoc(w, ms, m);
    ClaimStep(v, m);
    FileClaimed(v, m);
    hide Exec, Legal, Step, WithFile, LeftBy, Write, ReadPid;
    assert Signal(v, m.who, m.udid, m.running) == [];
    assert v.log + [] + [Write(m)] == v.log + [Write(m)];
  }

  lemma Decides(w: World, m: Move)
    requires m.Decide? && m.who in w.proxies && w.proxies[m.who].phase == Launched
    ensures Enabled(w, m)
    ensures Step(w, m).log == w.log + [Decision(m.who, m.attached, m.terminateOnStop, m.exited,
              Proxy.ShouldTerminate(m.attached, m.terminateOnStop, IsSuperseded(w, m.who), m.exited))]
  {
    hide StillOurs, Proxy.ShouldTerminate;
  }

  lemma Start(w: World)
    ensures Legal(w, []) && Exec(w, []) == w
  {}

  lemma Snoc(w: World, ms: seq<Move>, m: Move)
    requires Legal(w, ms) && Enabled(Exec(w, ms), m)
    ensures Legal(w, ms + [m]) && Exec(w, ms + [m]) == Step(Exec(w, ms), m)
  {
    hide Step, Enabled;
    assert (ms + [m])[..|ms|] == ms;
  }

  /** A proxy decides and claims nothing once it has given its pidfile up. */
  lemma {:induction false} ReleasedIsLast(w: World, ms: seq<Move>, i: nat, j: nat)
    requires Init(w) && Legal(w, ms)
    requires i < j < |Exec(w, ms).log| && Exec(w, ms).log[i].Released?
    ensures Exec(w, ms).log[j].who != Exec(w, ms).log[i].who
  {
    var before, m := ms[..|ms| - 1], ms[|ms| - 1];
    var v := Exec(w, before);
    LogGrows(v, m);
    ReleasedGone(w, ms);
    if j < |v.log| {
      ReleasedIsLast(w, before, i, j);
    } else {
      ReleasedGone(w, before);
      StepActs(v, m);
    }
  }

  lemma StepActs(w: World, m: Move)
    requires Enabled(w, m)
    ensures forall k :: |w.log| <= k < |Step(w, m).log| ==> Step(w, m).log[k].who == m.who
    ensures w.proxies[m.who].phase != Gone && w.log <= Step(w, m).log
    ensures m.Release? ==> |Step(w, m).log| <= |w.log| + 1
    ensures forall k :: |w.log| <= k < |Step(w, m).log| && Step(w, m).log[k].Released? ==>
              m.Release? && k == |Step(w, m).log| - 1
  {
    hide Victim, IsSuperseded, WithFile, AfterRemove, PidLine, Proxy.ShouldTerminate;
  }

  predicate ReleasersGone(w: World) {
    forall k :: 0 <= k < |w.log| && w.log[k].Released? ==>
      w.log[k].who in w.proxies && w.proxies[w.log[k].who].phase == Gone
  }

  lemma {:induction false} ReleasedGone(w: World, ms: seq<Move>)
    requires Init(w) && Legal(w, ms)
    ensures ReleasersGone(Exec(w, ms))
  {
    if ms != [] {
      var before := ms[..|ms| - 1];
      ReleasedGone(w, before);
      ReleasedStep(Exec(w, before), ms[|ms| - 1]);
      hide ReleasersGone, Step;
    }
  }

  lemma ReleasedStep(w: World, m: Move)
    requires Enabled(w, m) && ReleasersGone(w)
    ensures ReleasersGone(Step(w, m))
  {
    StepActs(w, m);
    StepPhases(w, m);
    var v := Step(w, m);
    hide Step;
    forall k | 0 <= k < |v.log| && v.log[k].Released?
      ensures v.log[k].who in v.proxies && v.proxies[v.log[k].who].phase == Gone
    {
      if k < |w.log| {
        assert v.log[k] == w.log[k];
      }
    }
  }

  lemma StepPhases(w: World, m: Move)
    requires Enabled(w, m)
    ensures forall p :: p in w.proxies && p != m.who ==>
              p in Step(w, m).proxies && Step(w, m).proxies[p].phase == w.proxies[p].phase
    ensures m.Release? ==> m.who in Step(w, m).proxies && Step(w, m).proxies[m.who].phase == Gone
  {
    hide Victim, IsSuperseded, WithFile, AfterRemove, PidLine, Proxy.ShouldTerminate;
  }

  // -- who is signalled -------------------------------------------------------

  /** In every run a claim, or the early signal, on a simulator whose last claimer has not given it up signals that
      claimer exactly when it is still alive as `xcode-dap`, and nobody else. */
  lemma ClaimerSignalled(w: World, ms: seq<Move>, m: Move, q: nat)
    requires Init(w) && Legal(w, ms) && Enabled(Exec(w, ms), m) && (m.KillOld? || m.ClaimSim?)
    requires var v := Exec(w, ms);
             LastWrite(v.log, m.udid) == Some(Claimed(q, m.udid)) && q in v.proxies && v.proxies[q].phase != Gone
    requires q != m.who && 1 < q <= 0x7FFF_FFFF
    ensures var v := Exec(w, ms);
            Step(v, m).log == v.log
                              + (if q in m.running && m.running[q] == "xcode-dap" then [Signalled(m.who, q)] else [])
                              + if m.ClaimSim? then [Write(m)] else []
  {
    OwnerKeepsFile(w, ms, q, m.udid);
    InvariantHolds(w, ms);
    var v := Exec(w, ms);
    SmallPids(v, m.who);
    LineVictim(q, m.who, m.running);
    hide Exec, Legal, Init, LastWrite, Victim, Consistent, Owned;
    assert Signal(v, m.who, m.udid, m.running)
        == if q in m.running && m.running[q] == "xcode-dap" then [Signalled(m.who, q)] else [];
  }

  /** Nothing but a live `xcode-dap` is ever signalled. */
  lemma OnlyProxiesSignalled(w: World, m: Move, k: nat)
    requires Enabled(w, m) && |w.log| <= k < |Step(w, m).log| && Step(w, m).log[k].Signalled?
    ensures (m.KillOld? || m.ClaimSim?) && k == |w.log|
    ensures var pid := Step(w, m).log[k].pid;
            pid > 1 && pid in m.running && m.running[pid] == "xcode-dap"
  {
    hide ReadPid, IsSuperseded, WithFile, AfterRemove, PidLine, Proxy.ShouldTerminate;
    if m.KillOld? || m.ClaimSim? {
      VictimNamed(FileOf(w, m.udid), m.who, m.running);
    }
  }

  // -- the early signal -------------------------------------------------------

  function WithoutKills(ms: seq<Move>): seq<Move> {
    if ms == [] then []
    else WithoutKills(ms[..|ms| - 1]) + (if ms[|ms| - 1].KillOld? then [] else [ms[|ms| - 1]])
  }

  function WithoutSignals(log: seq<Act>): seq<Act> {
    if log == [] then []
    else WithoutSignals(log[..|log| - 1]) + (if log[|log| - 1].Signalled? then [] else [log[|log| - 1]])
  }

  lemma SignalsDropped(log: seq<Act>, w: World, p: nat, udid: string, running: map<int, string>)
    ensures WithoutSignals(log + Signal(w, p, udid, running)) == WithoutSignals(log)
  {
    hide Victim;
    match Victim(FileOf(w, udid), p, running)
    case None => assert log + [] == log;
    case Some(pid) => assert (log + [Signalled(p, pid)])[..|log|] == log;
  }

  lemma ActKept(log: seq<Act>, a: Act)
    requires !a.Signalled?
    ensures WithoutSignals(log + [a]) == WithoutSignals(log) + [a]
  {
    assert (log + [a])[..|log|] == log;
  }

  /** Ownership and decisions do not look at the signals sent. */
  lemma SameMove(w: World, v: World, m: Move)
    requires w.files == v.files && w.proxies == v.proxies && WithoutSignals(w.log) == WithoutSignals(v.log)
    requires Enabled(w, m)
    ensures Enabled(v, m) && Step(w, m).files == Step(v, m).files && Step(w, m).proxies == Step(v, m).proxies
    ensures WithoutSignals(Step(w, m).log) == WithoutSignals(Step(v, m).log)
  {
    SameFiles(w, v, m);
    SameActs(w, m);
    SameActs(v, m);
    SameDecisions(w, v, m);
    hide Step, Acts;
  }

  /** What a move adds to the log, signals aside. */
  function Acts(w: World, m: Move): seq<Act>
    requires Enabled(w, m)
  {
    match m
    case KillOld(_, _, _) => []
    case ClaimSim(_, _, _, _, _) => [Write(m)]
    case Decide(p, attached, terminateOnStop, exited) =>
      [Decision(p, attached, terminateOnStop, exited,
                Proxy.ShouldTerminate(attached, terminateOnStop, IsSuperseded(w, p), exited))]
    case Release(p, _) => if w.proxies[p].udid.Some? then [Released(p, w.proxies[p].udid.value)] else []
  }

  lemma SameFiles(w: World, v: World, m: Move)
    requires w.files == v.files && w.proxies == v.proxies && Enabled(w, m)
    ensures Enabled(v, m) && Step(w, m).files == Step(v, m).files && Step(w, m).proxies == Step(v, m).proxies
  {
    assert forall udid :: FileOf(w, udid) == FileOf(v, udid);
    hide Signal, IsSuperseded, WithFile, AfterRemove, PidLine, Proxy.ShouldTerminate;
  }

  lemma SameDecisions(w: World, v: World, m: Move)
    requires w.files == v.files && w.proxies == v.proxies && Enabled(w, m) && Enabled(v, m)
    ensures Acts(w, m) == Acts(v, m)
  {
    hide StillOurs, Proxy.ShouldTerminate;
  }

  lemma SameActs(w: World, m: Move)
    requires Enabled(w, m)
    ensures WithoutSignals(Step(w, m).log) == WithoutSignals(w.log) + Acts(w, m)
  {
    hide Signal, IsSuperseded, WithFile, AfterRemove, PidLine, Proxy.ShouldTerminate;
    match m {
      case KillOld(p, udid, running) =>
        SignalsDropped(w.log, w, p, udid, running);
      case ClaimSim(p, udid, running, _, _) =>
        SignalsDropped(w.log, w, p, udid, running);
        ActKept(w.log + Signal(w, p, udid, running), Write(m));
      case Decide(_, _, _, _) =>
        ActKept(w.log, Acts(w, m)[0]);
      case Release(p, _) =>
        if w.proxies[p].udid.Some? {
          ActKept(w.log, Released(p, w.proxies[p].udid.value));
        }
    }
  }

  /** The early `kill_old` signals are invisible to ownership: leaving them all out of a run changes no file, no
      proxy, no claim, no decision and no release. */
  lemma {:induction false} EarlySignalHarmless(w: World, ms: seq<Move>)
    requires Legal(w, ms)
    ensures Legal(w, WithoutKills(ms))
    ensures var with, without := Exec(w, ms), Exec(w, WithoutKills(ms));
            with.files == without.files && with.proxies == without.proxies
            && WithoutSignals(with.log) == WithoutSignals(without.log)
  {
    if ms != [] {
      hide Step, Enabled;
      var before, m := ms[..|ms| - 1], ms[|ms| - 1];
      EarlySignalHarmless(w, before);
      var v, kept := Exec(w, before), WithoutKills(before);
      if m.KillOld? {
        KillsNothing(v, m);
        assert WithoutKills(ms) == kept;
      } else {
        SameMove(v, Exec(w, kept), m);
        assert WithoutKills(ms) == kept + [m];
        assert (kept + [m])[..|kept|] == kept;
      }
    }
  }

  lemma KillsNothing(w: World, m: Move)
    requires Enabled(w, m) && m.KillOld?
    ensures Step(w, m).files == w.files && Step(w, m).proxies == w.proxies
    ensures WithoutSignals(Step(w, m).log) == WithoutSignals(w.log)
  {
    SignalsDropped(w.log, w, m.who, m.udid, m.running);
  }
}
