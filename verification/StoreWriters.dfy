/** Several processes writing one store file (engine/compile_store.rs): each holds the lock across re-read, merge
    and save, and any process may read at any time. */
module StoreWriters {
  import opened Text
  import opened CompileStore

  /** One call with something to merge: what was parsed, and whether its save succeeded. */
  datatype Job = Job(groups: seq<seq<ParsedModule>>, watermark: Watermark, saved: bool)

  /** Where a process is in the locked section. */
  datatype Pc = Outside | Locked | Holding(copy: Contents) | Saved

  /** `commits` lists the saved jobs in the order they took the lock; `seen` what each unlocked read returned, and
      how many commits there were then. */
  datatype System = System(
    buildRoot: string,
    scheme: string,
    file: Option<Persisted>,
    procs: map<nat, Pc>,
    commits: seq<Job>,
    seen: seq<(Contents, nat)>)

  datatype Move = Lock(who: nat) | ReRead(who: nat) | Save(who: nat, job: Job) | Unlock(who: nat) | Look(who: nat)

  function OnDisk(s: System): Contents {
    Read(s.file, s.buildRoot, s.scheme)
  }

  predicate Enabled(s: System, m: Move) {
    && m.who in s.procs
    && match m
       case Lock(p) => forall q :: q in s.procs ==> s.procs[q].Outside?
       case ReRead(p) => s.procs[p].Locked?
       case Save(p, job) => s.procs[p].Holding? && Changes(job.groups)
       case Unlock(p) => s.procs[p].Saved?
       case Look(p) => s.procs[p].Outside?
  }

  /** A save writes what came of the copy it read, whatever the file holds by then. */
  function Step(s: System, m: Move): System
    requires Enabled(s, m)
  {
    match m
    case Lock(p) => s.(procs := s.procs[p := Locked])
    case ReRead(p) => s.(procs := s.procs[p := Holding(OnDisk(s))])
    case Save(p, job) =>
      var t := s.(procs := s.procs[p := Saved]);
      if !job.saved then t
      else
        t.(file := Some(Written(MergedAll(s.procs[p].copy, job.groups, job.watermark), s.buildRoot, s.scheme)),
           commits := s.commits + [job])
    case Unlock(p) => s.(procs := s.procs[p := Outside])
    case Look(p) => s.(seen := s.seen + [(OnDisk(s), |s.commits|)])
  }

  predicate Init(s: System) {
    s.commits == [] && s.seen == [] && forall p :: p in s.procs ==> s.procs[p].Outside?
  }

  function Exec(s: System, ms: seq<Move>): System
    requires Legal(s, ms)
    decreases |ms|, 1
  {
    if ms == [] then s else Step(Exec(s, ms[..|ms| - 1]), ms[|ms| - 1])
  }

  predicate Legal(s: System, ms: seq<Move>)
    decreases |ms|, 0
  {
    ms == [] || (Legal(s, ms[..|ms| - 1]) && Enabled(Exec(s, ms[..|ms| - 1]), ms[|ms| - 1]))
  }

  /** The jobs merged one after the other. */
  function Fold(c: Contents, jobs: seq<Job>): Contents {
    if jobs == [] then c
    else MergedAll(Fold(c, jobs[..|jobs| - 1]), jobs[|jobs| - 1].groups, jobs[|jobs| - 1].watermark)
  }

  /** At most one process is in the section; its copy is current; the file is the fold of the commits. */
  ghost predicate Serial(start: Contents, s: System) {
    && OnDisk(s) == Fold(start, s.commits)
    && (forall p, q :: p in s.procs && q in s.procs && !s.procs[p].Outside? && !s.procs[q].Outside? ==> p == q)
    && (forall p :: p in s.procs && s.procs[p].Holding? ==> s.procs[p].copy == OnDisk(s))
    && (forall k :: 0 <= k < |s.commits| ==> Changes(s.commits[k].groups))
    && (forall k :: 0 <= k < |s.seen| ==>
          s.seen[k].1 <= |s.commits| && s.seen[k].0 == Fold(start, s.commits[..s.seen[k].1]))
  }

  lemma FoldNext(start: Contents, jobs: seq<Job>, job: Job)
    ensures Fold(start, jobs + [job]) == MergedAll(Fold(start, jobs), job.groups, job.watermark)
  {
    assert (jobs + [job])[..|jobs|] == jobs;
    hide MergedAll;
  }

  lemma ReadWritten(c: Contents, buildRoot: string, scheme: string)
    ensures Read(Some(Written(c, buildRoot, scheme)), buildRoot, scheme) == c
  {}

  lemma SeenStands(start: Contents, jobs: seq<Job>, job: Job, seen: seq<(Contents, nat)>)
    requires forall k :: 0 <= k < |seen| ==> seen[k].1 <= |jobs| && seen[k].0 == Fold(start, jobs[..seen[k].1])
    ensures forall k :: 0 <= k < |seen| ==>
              seen[k].1 <= |jobs + [job]| && seen[k].0 == Fold(start, (jobs + [job])[..seen[k].1])
  {
    hide Fold;
    forall k | 0 <= k < |seen| ensures (jobs + [job])[..seen[k].1] == jobs[..seen[k].1] {}
  }

  lemma SerialSave(start: Contents, s: System, p: nat, job: Job)
    requires Enabled(s, Save(p, job)) && Serial(start, s)
    ensures Serial(start, Step(s, Save(p, job)))
  {
    var c := MergedAll(s.procs[p].copy, job.groups, job.watermark);
    ReadWritten(c, s.buildRoot, s.scheme);
    FoldNext(start, s.commits, job);
    SeenStands(start, s.commits, job, s.seen);
    hide MergedAll, Changes, Fold, Read, Written;
  }

  lemma SerialStep(start: Contents, s: System, m: Move)
    requires Enabled(s, m) && Serial(start, s)
    ensures Serial(start, Step(s, m))
  {
    hide MergedAll, Changes, Fold;
    match m {
      case Save(p, job) => SerialSave(start, s, p, job);
      case Look(_) => assert s.commits[..|s.commits|] == s.commits;
      case _ =>
    }
  }

  /** No lost update, over every interleaving: the file reads as the fold of all commits in lock order, and every
      unlocked reader got the fold of the commits made until then. */
  lemma {:induction false} NoLostUpdate(s: System, ms: seq<Move>)
    requires Init(s) && Legal(s, ms)
    ensures Serial(OnDisk(s), Exec(s, ms))
  {
    if ms != [] {
      NoLostUpdate(s, ms[..|ms| - 1]);
      SerialStep(OnDisk(s), Exec(s, ms[..|ms| - 1]), ms[|ms| - 1]);
      hide Serial, Step;
    } else {
      assert Fold(OnDisk(s), []) == OnDisk(s);
    }
  }

  // -- what the fold holds ----------------------------------------------------

  function AllParsed(jobs: seq<Job>): seq<ParsedModule> {
    if jobs == [] then [] else AllParsed(jobs[..|jobs| - 1]) + Flatten(jobs[|jobs| - 1].groups)
  }

  /** The log of the last job that advanced the watermark. */
  function LastAdvance(jobs: seq<Job>, otherwise: Option<string>): Option<string> {
    if jobs == [] then otherwise
    else if jobs[|jobs| - 1].watermark.Advance? then jobs[|jobs| - 1].watermark.log
    else LastAdvance(jobs[..|jobs| - 1], otherwise)
  }

  lemma {:induction false} FoldContents(c: Contents, jobs: seq<Job>)
    requires forall k :: 0 <= k < |jobs| ==> Changes(jobs[k].groups)
    ensures Fold(c, jobs).modules == Merged(c.modules, AllParsed(jobs))
    ensures Fold(c, jobs).lastLog == LastAdvance(jobs, c.lastLog)
  {
    if jobs != [] {
      hide Changes, Flatten, Merged;
      var before := jobs[..|jobs| - 1];
      FoldContents(c, before);
      MergedAppend(c.modules, AllParsed(before), Flatten(jobs[|jobs| - 1].groups));
    } else {
      assert Merged(c.modules, []) == c.modules;
    }
  }

  /** So after any run each module holds its newest parse in lock order, whoever wrote it, and the watermark is that
      of the last writer that advanced it. */
  lemma FinalStore(s: System, ms: seq<Move>, name: string)
    requires Init(s) && Legal(s, ms)
    ensures var t := Exec(s, ms);
            var parse := if name == "" then None else LastParse(AllParsed(t.commits), name);
            (name in OnDisk(t).modules <==> parse.Some? || name in OnDisk(s).modules)
            && (name in OnDisk(t).modules ==>
                  OnDisk(t).modules[name] == if parse.Some? then parse.value else OnDisk(s).modules[name])
            && OnDisk(t).lastLog == LastAdvance(t.commits, OnDisk(s).lastLog)
  {
    NoLostUpdate(s, ms);
    var t := Exec(s, ms);
    FoldContents(OnDisk(s), t.commits);
    MergedLastWins(OnDisk(s).modules, AllParsed(t.commits), name);
    hide Exec, Legal, Fold, Merged, OnDisk, LastParse, LastAdvance;
  }
}
