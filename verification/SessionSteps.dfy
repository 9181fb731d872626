/** Session handlers interleaved (bsp/ingest.rs, bsp/server.rs): loading and merging run off the session lock, so a
    result may come back when the configuration it was made for has been swapped away. */
module SessionSteps {
  import opened Text
  import opened CompileStore
  import opened Ingest

  /** Work under way off the lock, with what it will bring back. */
  datatype Task =
    | Initializing(file: BuildServerFile, store: Option<Loaded>, bsMtime: Option<nat>)
    | Merging(result: Loaded, mtime: Option<nat>, newest: Option<string>)
    | Reloading(result: Loaded, mtime: Option<nat>)

  /** `produced` collects every store that was loaded or merged, for whichever configuration. */
  datatype Interleaving = Interleaving(session: Session, tasks: seq<Task>, produced: set<Loaded>)

  /** A task starts by reading the configuration under the lock and ends by taking the lock again. What it reads
      from disk may be anything: other processes write there. `Swap` loads while it holds the lock; `Warm` is the
      bootstrap of a store that was not empty. */
  datatype Move =
    | StartInitialize(file: BuildServerFile, contents: Contents, bsMtime: Option<nat>)
    | StartMerge(merged: Contents, mtime: Option<nat>, newest: Option<string>)
    | StartReload(contents: Contents, mtime: Option<nat>)
    | Finish(task: nat)
    | Swap(file: BuildServerFile, bsMtime: Option<nat>, contents: Contents, mtime: Option<nat>)
    | Warm(mtime: Option<nat>)

  function LoadedFor(file: BuildServerFile, contents: Contents): Option<Loaded> {
    match ConfigOf(file.buildRoot, file.scheme)
    case None => None
    case Some(c) => Some(Loaded(c, contents))
  }

  function With(produced: set<Loaded>, store: Option<Loaded>): set<Loaded> {
    if store.Some? then produced + {store.value} else produced
  }

  predicate Enabled(s: Interleaving, m: Move) {
    match m
    case StartMerge(_, _, _) => Current(s.session).Some?
    case StartReload(_, _) => Current(s.session).Some?
    case Finish(i) => i < |s.tasks|
    case Warm(_) => s.session.store.Some?
    case _ => true
  }

  /** A task takes the lock and assigns the session. */
  function Finished(s: Session, t: Task): Session {
    match t
    case Initializing(file, store, bsMtime) => Initialized(s, file, store, bsMtime)
    case Merging(result, mtime, newest) => Adopted(s, result.config, result.contents, mtime, newest)
    case Reloading(result, mtime) => Reloaded(s, result.config, result.contents, mtime)
  }

  function Step(s: Interleaving, m: Move): Interleaving
    requires Enabled(s, m)
  {
    match m
    case StartInitialize(file, contents, bsMtime) =>
      var store := LoadedFor(file, contents);
      s.(tasks := s.tasks + [Initializing(file, store, bsMtime)], produced := With(s.produced, store))
    case StartMerge(merged, mtime, newest) =>
      var result := Loaded(Current(s.session).value, merged);
      s.(tasks := s.tasks + [Merging(result, mtime, newest)], produced := s.produced + {result})
    case StartReload(contents, mtime) =>
      var result := Loaded(Current(s.session).value, contents);
      s.(tasks := s.tasks + [Reloading(result, mtime)], produced := s.produced + {result})
    case Finish(i) =>
      s.(session := Finished(s.session, s.tasks[i]), tasks := s.tasks[..i] + s.tasks[i + 1..])
    case Swap(file, bsMtime, contents, mtime) =>
      var store := LoadedFor(file, contents);
      s.(session := Swapped(s.session, file, bsMtime, store, mtime), produced := With(s.produced, store))
    case Warm(mtime) => s.(session := s.session.(storeMtime := mtime))
  }

  function Exec(s: Interleaving, ms: seq<Move>): Interleaving
    requires Legal(s, ms)
    decreases |ms|, 1
  {
    if ms == [] then s else Step(Exec(s, ms[..|ms| - 1]), ms[|ms| - 1])
  }

  predicate Legal(s: Interleaving, ms: seq<Move>)
    decreases |ms|, 0
  {
    ms == [] || (Legal(s, ms[..|ms| - 1]) && Enabled(Exec(s, ms[..|ms| - 1]), ms[|ms| - 1]))
  }

  const START := Interleaving(NEW_SESSION, [], {})

  // -- consistency ------------------------------------------------------------

  /** There is a store exactly when the configuration is complete, and then it was produced for it. */
  predicate Matches(store: Option<Loaded>, config: Option<Config>, produced: set<Loaded>) {
    && (store.Some? <==> config.Some?)
    && (store.Some? ==> store.value.config == config.value && store.value in produced)
  }

  predicate TaskSound(t: Task, produced: set<Loaded>) {
    match t
    case Initializing(file, store, _) => Matches(store, ConfigOf(file.buildRoot, file.scheme), produced)
    case Merging(result, _, _) => result in produced
    case Reloading(result, _) => result in produced
  }

  predicate Consistent(s: Interleaving) {
    && Matches(s.session.store, Current(s.session), s.produced)
    && forall i :: 0 <= i < |s.tasks| ==> TaskSound(s.tasks[i], s.produced)
  }

  lemma ConsistentFinish(s: Interleaving, i: nat)
    requires Consistent(s) && i < |s.tasks|
    ensures Consistent(Step(s, Finish(i)))
  {
    assert TaskSound(s.tasks[i], s.produced);
    var left := s.tasks[..i] + s.tasks[i + 1..];
    forall k | 0 <= k < |left| ensures TaskSound(left[k], s.produced) {
      assert left[k] == if k < i then s.tasks[k] else s.tasks[k + 1];
    }
  }

  lemma ConsistentStep(s: Interleaving, m: Move)
    requires Consistent(s) && Enabled(s, m)
    ensures Consistent(Step(s, m))
  {
    if m.Finish? {
      ConsistentFinish(s, m.task);
    }
  }

  /** In every interleaving of initialisation, configuration reload, store reload and ingestion: a store the session
      holds was loaded or merged for the session's own build root and scheme. */
  lemma {:induction false} SessionConsistent(ms: seq<Move>)
    requires Legal(START, ms)
    ensures Consistent(Exec(START, ms))
  {
    if ms != [] {
      hide Consistent, Step, Enabled;
      SessionConsistent(ms[..|ms| - 1]);
      ConsistentStep(Exec(START, ms[..|ms| - 1]), ms[|ms| - 1]);
    } else {
      assert Consistent(START);
    }
  }

  /** A merge or load that comes back after its configuration was swapped away changes nothing in the session; one
      that comes back in time becomes its store. */
  lemma StaleNeverAdopted(ms: seq<Move>, i: nat)
    requires Legal(START, ms) && i < |Exec(START, ms).tasks| && !Exec(START, ms).tasks[i].Initializing?
    ensures var s := Exec(START, ms);
            var t := Step(s, Finish(i)).session;
            var result := s.tasks[i].result;
            (Current(s.session) != Some(result.config) ==> t == s.session)
            && (Current(s.session) == Some(result.config) <==> t.store == Some(result))
  {
    SessionConsistent(ms);
    hide Exec, Legal;
  }
}
