/** Incremental ingestion against a cold replay (bsp/ingest.rs): whatever the schedule of builds, polls, restarts,
    configuration switches and spurious reloads, a store holds what one replay of its logs would give. */
module IngestReplay {
  import opened Text
  import opened CompileStore
  import opened Ingest

  /** `Build` appends a log to a manifest, `Rewrite` replaces or removes the build server file, `Touch` changes only a store
      file's time. `saved` says whether a store could be written. */
  datatype Move =
    | Build(config: Config, log: Log)
    | Rewrite(file: BuildServerFile, mtime: Option<nat>)
    | Touch(config: Config)
    | Restart
    | Reinitialize
    | Boot(saved: bool)
    | Tick(saved: bool)

  function Names(logs: seq<Log>): set<string> {
    set i | 0 <= i < |logs| :: logs[i].name
  }

  predicate Enabled(m: Machine, move: Move) {
    match move
    case Build(c, log) => log.name !in Names(Manifest(m, c))
    case Touch(c) => c in m.times
    case Boot(saved) => saved
    case Tick(saved) => saved
    case _ => true
  }

  function Step(m: Machine, move: Move): Machine {
    match move
    case Build(c, log) => m.(manifests := m.manifests[c := Manifest(m, c) + [log]])
    case Rewrite(file, mtime) => m.(bs := file, bsTime := mtime)
    case Touch(c) => m.(times := m.times[c := m.clock], clock := m.clock + 1)
    case Restart => Initialize(m.(session := NEW_SESSION))
    case Reinitialize => Initialize(m)
    case Boot(saved) => Bootstrap(m, saved)
    case Tick(saved) => Poll(m, saved)
  }

  function Exec(m: Machine, ms: seq<Move>): Machine {
    if ms == [] then m else Step(Exec(m, ms[..|ms| - 1]), ms[|ms| - 1])
  }

  /** Builds bring new names, and every save succeeds. */
  predicate Legal(m: Machine, ms: seq<Move>) {
    ms == [] || (Legal(m, ms[..|ms| - 1]) && Enabled(Exec(m, ms[..|ms| - 1]), ms[|ms| - 1]))
  }

  predicate Init(m: Machine) {
    m.session == NEW_SESSION && m.files == map[] && m.times == map[] && m.manifests == map[]
  }

  // -- replaying --------------------------------------------------------------

  /** One oldest-to-newest replay into an empty store. */
  function Replay(logs: seq<Log>): map<string, Entry> {
    Merged(map[], Flatten(Groups(logs)))
  }

  predicate Distinct(logs: seq<Log>) {
    forall i, j :: 0 <= i < j < |logs| ==> logs[i].name != logs[j].name
  }

  predicate Known(logs: seq<Log>, watermark: Option<string>) {
    watermark.None? || Position(logs, watermark.value).Some?
  }

  /** How many logs a watermark stands for. */
  function Upto(logs: seq<Log>, watermark: Option<string>): (n: nat)
    ensures n <= |logs|
  {
    if watermark.None? then 0
    else match Position(logs, watermark.value)
         case None => 0
         case Some(i) => if i < |logs| then i + 1 else 0
  }

  lemma {:induction false} PositionSound(logs: seq<Log>, name: string)
    ensures match Position(logs, name)
            case None => name !in Names(logs)
            case Some(i) => i < |logs| && logs[i].name == name
  {
    if logs != [] && logs[0].name != name {
      PositionSound(logs[1..], name);
      if Position(logs[1..], name).None? {
        forall i | 0 <= i < |logs| ensures logs[i].name != name {
          if i > 0 {
            assert logs[i] == logs[1..][i - 1];
            assert logs[1..][i - 1].name in Names(logs[1..]);
          }
        }
      }
    }
  }

  lemma PositionOf(logs: seq<Log>, i: nat)
    requires Distinct(logs) && i < |logs|
    ensures Position(logs, logs[i].name) == Some(i)
  {
    PositionSound(logs, logs[i].name);
    hide Position;
    assert logs[i].name in Names(logs);
  }

  lemma {:induction false} PositionAppend(logs: seq<Log>, log: Log, name: string)
    requires Position(logs, name).Some?
    ensures Position(logs + [log], name) == Position(logs, name)
  {
    if logs[0].name != name {
      assert (logs + [log])[1..] == logs[1..] + [log];
      PositionAppend(logs[1..], log, name);
    }
  }

  lemma UptoAppend(logs: seq<Log>, log: Log, watermark: Option<string>)
    requires Known(logs, watermark)
    ensures Known(logs + [log], watermark) && Upto(logs + [log], watermark) == Upto(logs, watermark)
  {
    if watermark.Some? {
      PositionAppend(logs, log, watermark.value);
      PositionSound(logs, watermark.value);
    }
  }

  lemma GroupsConcat(a: seq<Log>, b: seq<Log>)
    ensures Groups(a + b) == Groups(a) + Groups(b)
  {}

  /** Replaying on from where a replay stopped. */
  lemma ReplayOn(logs: seq<Log>, k: nat)
    requires k <= |logs|
    ensures Merged(Replay(logs[..k]), Flatten(Groups(logs[k..]))) == Replay(logs)
  {
    assert logs == logs[..k] + logs[k..];
    GroupsConcat(logs[..k], logs[k..]);
    FlattenAppend(Groups(logs[..k]), Groups(logs[k..]));
    MergedAppend(map[], Flatten(Groups(logs[..k])), Flatten(Groups(logs[k..])));
  }

  predicate Barren(logs: seq<Log>) {
    forall i :: 0 <= i < |logs| ==> logs[i].parsed == []
  }

  lemma {:induction false} BarrenFlat(logs: seq<Log>)
    requires Barren(logs)
    ensures Flatten(Groups(logs)) == [] && !Changes(Groups(logs))
  {
    if logs != [] {
      assert Groups(logs)[1..] == Groups(logs[1..]);
      BarrenFlat(logs[1..]);
    }
  }

  lemma UnchangedBarren(logs: seq<Log>)
    requires !Changes(Groups(logs))
    ensures Barren(logs)
  {
    forall i | 0 <= i < |logs| ensures logs[i].parsed == [] {
      assert Groups(logs)[i] == logs[i].parsed;
    }
  }

  /** Logs that parsed to nothing do not change a replay. */
  lemma ReplaySkips(logs: seq<Log>, i: nat, j: nat)
    requires i <= j <= |logs| && Barren(logs[i..j])
    ensures Replay(logs[..i]) == Replay(logs[..j])
  {
    assert logs[..j][..i] == logs[..i] && logs[..j][i..] == logs[i..j];
    ReplayOn(logs[..j], i);
    BarrenFlat(logs[i..j]);
    assert Merged(Replay(logs[..i]), []) == Replay(logs[..i]);
  }

  // -- the invariant ----------------------------------------------------------

  /** A store is the replay of the logs its persisted watermark stands for. */
  predicate StoreRight(logs: seq<Log>, stored: Contents) {
    Known(logs, stored.lastLog) && stored.modules == Replay(logs[..Upto(logs, stored.lastLog)])
  }

  /** The session serves what is on disk, and between the persisted and its own watermark no log yielded anything. */
  predicate Follows(logs: seq<Log>, stored: Contents, watermark: Option<string>) {
    && Known(logs, watermark)
    && Upto(logs, stored.lastLog) <= Upto(logs, watermark)
    && Barren(logs[Upto(logs, stored.lastLog)..Upto(logs, watermark)])
  }

  predicate SessionRight(m: Machine) {
    match Current(m.session)
    case None => true
    case Some(c) =>
      m.session.store == Some(Loaded(c, OnDisk(m, c)))
      && Follows(Manifest(m, c), OnDisk(m, c), m.session.watermark)
  }

  ghost predicate StoresRight(m: Machine) {
    forall c :: Distinct(Manifest(m, c)) && StoreRight(Manifest(m, c), OnDisk(m, c))
  }

  ghost predicate Right(m: Machine) {
    StoresRight(m) && SessionRight(m)
  }

  lemma FollowsItself(logs: seq<Log>, stored: Contents)
    requires StoreRight(logs, stored)
    ensures Follows(logs, stored, stored.lastLog)
  {
    hide Replay;
  }

  lemma StoreAppend(logs: seq<Log>, log: Log, stored: Contents)
    requires StoreRight(logs, stored)
    ensures StoreRight(logs + [log], stored)
  {
    UptoAppend(logs, log, stored.lastLog);
    assert (logs + [log])[..Upto(logs, stored.lastLog)] == logs[..Upto(logs, stored.lastLog)];
    hide Replay;
  }

  lemma FollowsAppend(logs: seq<Log>, log: Log, stored: Contents, watermark: Option<string>)
    requires StoreRight(logs, stored) && Follows(logs, stored, watermark)
    ensures Follows(logs + [log], stored, watermark)
  {
    UptoAppend(logs, log, stored.lastLog);
    UptoAppend(logs, log, watermark);
    var i, j := Upto(logs, stored.lastLog), Upto(logs, watermark);
    assert (logs + [log])[i..j] == logs[i..j];
    hide Replay, Known, Upto;
  }

  lemma RightBuild(m: Machine, c: Config, log: Log)
    requires Right(m) && log.name !in Names(Manifest(m, c))
    ensures Right(Step(m, Build(c, log)))
  {
    var t := Step(m, Build(c, log));
    var logs := Manifest(m, c);
    forall d ensures Distinct(Manifest(t, d)) && StoreRight(Manifest(t, d), OnDisk(t, d)) {
      assert Distinct(Manifest(m, d)) && StoreRight(Manifest(m, d), OnDisk(m, d));
      if d == c {
        StoreAppend(logs, log, OnDisk(m, c));
        forall i | 0 <= i < |logs| ensures logs[i].name != log.name {
          assert logs[i].name in Names(logs);
        }
      }
    }
    if Current(m.session) == Some(c) {
      assert StoreRight(logs, OnDisk(m, c));
      FollowsAppend(logs, log, OnDisk(m, c), m.session.watermark);
    }
    hide StoreRight, Follows;
  }

  /** A session that just took over the store on disk, watermark and all, is right. */
  lemma RightReload(m: Machine, t: Machine)
    requires StoresRight(m)
    requires t.files == m.files && t.manifests == m.manifests
    requires match Current(t.session)
             case None => true
             case Some(c) => t.session.store == Some(Loaded(c, OnDisk(m, c))) && t.session.watermark == OnDisk(m, c).lastLog
    ensures Right(t)
  {
    hide StoreRight, Follows, Distinct;
    assert forall c :: Manifest(t, c) == Manifest(m, c) && OnDisk(t, c) == OnDisk(m, c);
    if Current(t.session).Some? {
      var c := Current(t.session).value;
      assert StoreRight(Manifest(m, c), OnDisk(m, c));
      FollowsItself(Manifest(m, c), OnDisk(m, c));
    }
  }

  /** Nothing the invariant looks at changed. */
  lemma RightSame(m: Machine, t: Machine)
    requires Right(m)
    requires t.files == m.files && t.manifests == m.manifests
    requires Current(t.session) == Current(m.session)
    requires t.session.store == m.session.store && t.session.watermark == m.session.watermark
    ensures Right(t)
  {
    hide StoreRight, Follows, Distinct;
    assert forall c :: Manifest(t, c) == Manifest(m, c) && OnDisk(t, c) == OnDisk(m, c);
  }

  lemma RightConfig(m: Machine)
    requires Right(m)
    ensures Right(ReloadConfig(m))
  {
    hide Right;
    var t := ReloadConfig(m);
    if m.bsTime != m.session.bsMtime {
      if m.bs.buildRoot == m.session.buildRoot && m.bs.scheme == m.session.scheme {
        RightSame(m, t);
      } else {
        assert StoresRight(m) by { RightStores(m); }
        RightReload(m, t);
      }
    }
  }

  lemma RightStores(m: Machine)
    requires Right(m)
    ensures StoresRight(m) && SessionRight(m)
  {}

  lemma RightStore(m: Machine)
    requires Right(m)
    ensures Right(ReloadStore(m))
  {
    var t := ReloadStore(m);
    if t != m {
      RightReload(m, t);
    }
    hide StoresRight, SessionRight;
  }

  // -- ingesting --------------------------------------------------------------

  /** The store and the watermark after ingesting the logs from `k` on. */
  function NewestOf(logs: seq<Log>, k: nat): Option<string>
    requires k <= |logs|
  {
    if k == |logs| then None else Some(logs[|logs| - 1].name)
  }

  /** The logs from `k` on complete what is stored. */
  predicate Completes(logs: seq<Log>, k: nat, stored: Contents) {
    var u := Upto(logs, stored.lastLog);
    && k <= |logs| && (k == |logs| ==> logs == [])
    && (if u <= k then Barren(logs[u..k]) else k == 0 && stored.modules == map[])
  }

  lemma CompletedReplay(logs: seq<Log>, k: nat, stored: Contents)
    requires StoreRight(logs, stored) && Completes(logs, k, stored)
    ensures Merged(stored.modules, Flatten(Groups(logs[k..]))) == Replay(logs)
  {
    var u := Upto(logs, stored.lastLog);
    hide Merged, Flatten, Groups, Upto, Known;
    if k < u {
      assert logs[0..] == logs;
    } else {
      ReplaySkips(logs, u, k);
      ReplayOn(logs, k);
    }
  }

  lemma NewestKnown(logs: seq<Log>, k: nat)
    requires Distinct(logs) && k <= |logs| && (k == |logs| ==> logs == [])
    ensures Known(logs, NewestOf(logs, k)) && Upto(logs, NewestOf(logs, k)) == |logs|
  {
    if logs != [] {
      PositionOf(logs, |logs| - 1);
    }
  }

  lemma IngestSome(logs: seq<Log>, k: nat, stored: Contents)
    requires Distinct(logs) && StoreRight(logs, stored) && Completes(logs, k, stored) && Changes(Groups(logs[k..]))
    ensures var merged := MergedAll(stored, Groups(logs[k..]), Advance(NewestOf(logs, k)));
            StoreRight(logs, merged) && Follows(logs, merged, NewestOf(logs, k))
  {
    NewestKnown(logs, k);
    CompletedReplay(logs, k, stored);
    assert logs[..|logs|] == logs && logs[|logs|..|logs|] == [];
    hide Merged, Replay, Flatten, Groups, Changes, Upto, Known, NewestOf, Completes;
  }

  lemma IngestNone(logs: seq<Log>, k: nat, stored: Contents)
    requires Distinct(logs) && StoreRight(logs, stored) && Completes(logs, k, stored) && !Changes(Groups(logs[k..]))
    ensures Follows(logs, stored, NewestOf(logs, k))
  {
    NewestKnown(logs, k);
    UnchangedBarren(logs[k..]);
    var u := Upto(logs, stored.lastLog);
    hide Replay, Groups, Changes, Upto, Known, NewestOf;
    assert Barren(logs[u..|logs|]) by {
      if u <= k {
        assert logs[u..|logs|] == logs[u..k] + logs[k..];
      } else {
        assert logs[u..|logs|] == logs[k..][u..];
      }
    }
  }

  /** What one ingest of the logs from `k` on leaves on disk and in the session. */
  lemma IngestEffect(m: Machine, c: Config, logs: seq<Log>, k: nat)
    requires Current(m.session) == Some(c) && k <= |logs| && (k == |logs| ==> logs == [])
    ensures var t := IngestLogs(m, c, logs[k..], true);
            var groups, newest := Groups(logs[k..]), NewestOf(logs, k);
            var merged := if Changes(groups) then MergedAll(OnDisk(m, c), groups, Advance(newest)) else OnDisk(m, c);
            OnDisk(t, c) == merged && t.session.store == Some(Loaded(c, merged)) && t.session.watermark == newest
            && Current(t.session) == Some(c) && t.manifests == m.manifests
            && forall d :: d != c ==> OnDisk(t, d) == OnDisk(m, d)
  {
    hide MergedAll, Changes, Groups;
  }

  lemma RightIngest(m: Machine, c: Config, k: nat)
    requires Right(m) && Current(m.session) == Some(c) && Completes(Manifest(m, c), k, OnDisk(m, c))
    ensures var t := IngestLogs(m, c, Manifest(m, c)[k..], true);
            Right(t) && Current(t.session) == Some(c) && t.manifests == m.manifests
            && Upto(Manifest(t, c), t.session.watermark) == |Manifest(t, c)|
  {
    var logs, stored := Manifest(m, c), OnDisk(m, c);
    assert Distinct(logs) && StoreRight(logs, stored);
    NewestKnown(logs, k);
    if Changes(Groups(logs[k..])) {
      IngestSome(logs, k, stored);
    } else {
      IngestNone(logs, k, stored);
    }
    IngestEffect(m, c, logs, k);
    var t := IngestLogs(m, c, logs[k..], true);
    assert forall d :: Manifest(t, d) == Manifest(m, d);
    hide StoreRight, Follows, Distinct, MergedAll, Changes, Groups, Upto, IngestLogs, NewestOf, Completes, OnDisk, Manifest;
    forall d ensures Distinct(Manifest(t, d)) && StoreRight(Manifest(t, d), OnDisk(t, d)) {
      assert Distinct(Manifest(m, d)) && StoreRight(Manifest(m, d), OnDisk(m, d));
    }
  }

  lemma RightBoot(m: Machine)
    requires Right(m)
    ensures Right(Bootstrap(m, true))
  {
    if Current(m.session).Some? {
      var c := Current(m.session).value;
      if m.session.store.Some? && m.session.store.value.contents.modules != map[] {
        hide Right;
        RightSame(m, Bootstrap(m, true));
      } else {
        assert Manifest(m, c)[0..] == Manifest(m, c);
        assert Barren(Manifest(m, c)[0..0]);
        RightIngest(m, c, 0);
      }
    }
    hide IngestLogs, Right;
  }

  lemma PendingFrom(logs: seq<Log>, watermark: Option<string>)
    requires Known(logs, watermark)
    ensures LogsAfter(logs, watermark) == logs[Upto(logs, watermark)..]
  {
    if watermark.Some? {
      PositionSound(logs, watermark.value);
    }
  }

  /** The session's watermark stands for every log of its configuration. */
  predicate CaughtUp(m: Machine) {
    match Current(m.session)
    case None => true
    case Some(c) => Upto(Manifest(m, c), m.session.watermark) == |Manifest(m, c)|
  }

  /** Catching up keeps the invariant and leaves nothing pending. */
  lemma RightCatchUp(m: Machine)
    requires Right(m)
    ensures var t := CatchUp(m, true);
            Right(t) && t.manifests == m.manifests && CaughtUp(t)
  {
    if Current(m.session).Some? {
      var c := Current(m.session).value;
      var logs, k := Manifest(m, c), Upto(Manifest(m, c), m.session.watermark);
      RightParts(m, c);
      PendingFrom(logs, m.session.watermark);
      LastKnown(logs);
      hide Upto, IngestLogs, LogsAfter, Position, Distinct, StoreRight, Follows, OnDisk;
      if k < |logs| {
        RightIngest(m, c, k);
      }
      hide Right, Manifest;
    }
  }

  lemma RightParts(m: Machine, c: Config)
    requires Right(m) && Current(m.session) == Some(c)
    ensures var logs := Manifest(m, c);
            Distinct(logs) && Known(logs, m.session.watermark)
            && var u, k := Upto(logs, OnDisk(m, c).lastLog), Upto(logs, m.session.watermark);
               u <= k && Barren(logs[u..k])
  {
    hide Upto, Known, Barren;
  }

  lemma LastKnown(logs: seq<Log>)
    requires Distinct(logs)
    ensures logs != [] ==> Upto(logs, Some(logs[|logs| - 1].name)) == |logs|
  {
    if logs != [] {
      PositionOf(logs, |logs| - 1);
    }
  }

  lemma RightStep(m: Machine, move: Move)
    requires Right(m) && Enabled(m, move)
    ensures Right(Step(m, move))
  {
    match move {
      case Build(c, log) => RightBuild(m, c, log);
      case Rewrite(_, _) => RightSame(m, Step(m, move));
      case Touch(_) => RightSame(m, Step(m, move));
      case Restart => RightReload(m, Step(m, move));
      case Reinitialize => RightReload(m, Step(m, move));
      case Boot(_) => RightBoot(m);
      case Tick(_) =>
        RightConfig(m);
        RightStore(ReloadConfig(m));
        RightCatchUp(ReloadStore(ReloadConfig(m)));
    }
    hide StoresRight, SessionRight, CatchUp, ReloadStore, ReloadConfig, Bootstrap;
  }

  /** At every point of every schedule: each store is the replay of the logs its persisted watermark stands for, the
      session serves the store on disk, and every log between the two watermarks parsed to nothing. */
  lemma {:induction false} IngestInvariant(m: Machine, ms: seq<Move>)
    requires Init(m) && Legal(m, ms)
    ensures Right(Exec(m, ms))
  {
    if ms == [] {
      assert Replay([]) == map[];
    } else {
      hide Right, Step, Enabled;
      IngestInvariant(m, ms[..|ms| - 1]);
      RightStep(Exec(m, ms[..|ms| - 1]), ms[|ms| - 1]);
    }
  }

  lemma PollCatchesUp(m: Machine)
    requires Right(m)
    ensures Right(Poll(m, true)) && CaughtUp(Poll(m, true))
  {
    RightConfig(m);
    RightStore(ReloadConfig(m));
    RightCatchUp(ReloadStore(ReloadConfig(m)));
    hide CatchUp, ReloadStore, ReloadConfig, Right, Upto;
  }

  /** Caught up means replayed: the logs since the persisted watermark add nothing. */
  lemma CaughtUpIsReplay(m: Machine, c: Config)
    requires Right(m) && CaughtUp(m) && Current(m.session) == Some(c)
    ensures OnDisk(m, c).modules == Replay(Manifest(m, c)) && m.session.store == Some(Loaded(c, OnDisk(m, c)))
  {
    RightParts(m, c);
    var logs, stored := Manifest(m, c), OnDisk(m, c);
    assert StoreRight(logs, stored);
    hide Replay, Upto, Known, Barren;
    ReplaySkips(logs, Upto(logs, stored.lastLog), |logs|);
    assert logs[..|logs|] == logs;
  }

  /** So whenever a poll has just finished, the session's store is one cold oldest-to-newest replay of every log in
      the manifest of its configuration, on disk and in memory. */
  lemma IncrementalIsColdReplay(m: Machine, ms: seq<Move>, c: Config)
    requires Init(m) && Legal(m, ms) && ms != [] && ms[|ms| - 1].Tick?
    requires Current(Exec(m, ms).session) == Some(c)
    ensures var t := Exec(m, ms);
            OnDisk(t, c).modules == Replay(Manifest(t, c)) && t.session.store == Some(Loaded(c, OnDisk(t, c)))
  {
    hide Right, Poll, CaughtUp, Current, Init;
    var before := Exec(m, ms[..|ms| - 1]);
    IngestInvariant(m, ms[..|ms| - 1]);
    PollCatchesUp(before);
    CaughtUpIsReplay(Exec(m, ms), c);
  }

  // -- a store that could not be written --------------------------------------

  /** Logs that the next catch-up will look at. */
  function Pending(m: Machine, c: Config): seq<Log> {
    LogsAfter(Manifest(m, c), m.session.watermark)
  }

  /** The manifest grown by `more`. */
  function Built(m: Machine, c: Config, more: seq<Log>): Machine {
    m.(manifests := m.manifests[c := Manifest(m, c) + more])
  }

  /** A failed catch-up leaves the disk alone and moves the session past its logs all the same. */
  predicate Stranded(m: Machine, t: Machine, c: Config) {
    && t.files == m.files && t.times == m.times && t.manifests == m.manifests
    && t.bs == m.bs && t.bsTime == m.bsTime && t.clock == m.clock
    && Current(t.session) == Some(c) && t.session.bsMtime == m.session.bsMtime
    && t.session.storeMtime == TimeOf(m, c)
    && Manifest(m, c) != [] && t.session.watermark == Some(Manifest(m, c)[|Manifest(m, c)| - 1].name)
  }

  lemma CatchUpFails(m: Machine, c: Config)
    requires Right(m) && Current(m.session) == Some(c) && Pending(m, c) != []
    ensures Stranded(m, CatchUp(m, false), c)
    ensures Merged(OnDisk(m, c).modules, Flatten(Groups(Pending(m, c)))) == Replay(Manifest(m, c))
  {
    var logs, k := Manifest(m, c), Upto(Manifest(m, c), m.session.watermark);
    RightParts(m, c);
    PendingFrom(logs, m.session.watermark);
    LastKnown(logs);
    assert StoreRight(logs, OnDisk(m, c));
    CompletedReplay(logs, k, OnDisk(m, c));
    hide Right, Upto, LogsAfter, Merged, Flatten, Replay, MergeResult, Groups, Changes;
  }

  /** With nothing reloaded in between, the session's next poll looks only at what was built since, if anything. */
  lemma NextPoll(m: Machine, t: Machine, c: Config, more: seq<Log>)
    requires Stranded(m, t, c) && m.bsTime == m.session.bsMtime && Distinct(Manifest(m, c) + more)
    ensures var b := Built(t, c, more);
            Poll(b, true) == if more == [] then b else IngestLogs(b, c, more, true)
  {
    var b := Built(t, c, more);
    var logs := Manifest(m, c);
    var all := logs + more;
    assert Manifest(b, c) == all;
    assert all[|logs| - 1] == logs[|logs| - 1] && all[|logs|..] == more;
    PositionOf(all, |logs| - 1);
    PositionOf(all, |all| - 1);
    assert ReloadConfig(b) == b && ReloadStore(b) == b;
    hide IngestLogs, ReloadConfig, ReloadStore, Position, Distinct;
  }

  lemma NextModules(b: Machine, c: Config, more: seq<Log>)
    ensures var u := if more == [] then b else IngestLogs(b, c, more, true);
            OnDisk(u, c).modules == Merged(OnDisk(b, c).modules, Flatten(Groups(more))) && u.manifests == b.manifests
  {
    if more == [] {
      assert Groups([]) == [] && Merged(OnDisk(b, c).modules, []) == OnDisk(b, c).modules;
    } else {
      hide IngestLogs;
      IngestedModules(b, c, more);
    }
  }

  lemma IngestedModules(m: Machine, c: Config, logs: seq<Log>)
    ensures OnDisk(IngestLogs(m, c, logs, true), c).modules == Merged(OnDisk(m, c).modules, Flatten(Groups(logs)))
    ensures IngestLogs(m, c, logs, true).manifests == m.manifests
  {
    if !Changes(Groups(logs)) {
      UnchangedBarren(logs);
      BarrenFlat(logs);
    }
    hide Flatten, Groups, Changes;
  }

  /** A catch-up whose save fails, then builds or none, then a poll of the same session with nothing reloaded in
      between: the store is the cold replay of the whole manifest exactly when what the failed save skipped was
      covered, that is, parsed again in the new logs or already stored as it was parsed. */
  lemma FailedSaveIff(m: Machine, c: Config, more: seq<Log>)
    requires Right(m) && Current(m.session) == Some(c) && m.bsTime == m.session.bsMtime
    requires Pending(m, c) != [] && Distinct(Manifest(m, c) + more)
    ensures var u := Poll(Built(CatchUp(m, false), c, more), true);
            Manifest(u, c) == Manifest(m, c) + more
            && (OnDisk(u, c).modules == Replay(Manifest(m, c) + more)
                <==> Covered(OnDisk(m, c).modules, Flatten(Groups(Pending(m, c))), Flatten(Groups(more))))
  {
    var t, logs := CatchUp(m, false), Manifest(m, c);
    CatchUpFails(m, c);
    NextPoll(m, t, c, more);
    NextModules(Built(t, c, more), c, more);
    SkippedIff(OnDisk(m, c).modules, Flatten(Groups(Pending(m, c))), Flatten(Groups(more)));
    assert (logs + more)[..|logs|] == logs && (logs + more)[|logs|..] == more;
    ReplayOn(logs + more, |logs|);
    hide Right, CatchUp, Poll, IngestLogs, Pending, Merged, Flatten, Groups, Replay, Covered, Distinct;
  }

  /** A new process takes the old watermark back from disk. After its first poll the store is the cold replay
      exactly when the process serves this configuration, or the skipped and the new logs were covered as it was;
      under another configuration the store waits as it was. */
  lemma RestartHeals(m: Machine, c: Config, more: seq<Log>)
    requires Right(m) && Current(m.session) == Some(c) && Pending(m, c) != [] && Distinct(Manifest(m, c) + more)
    ensures var u := Poll(Step(Built(CatchUp(m, false), c, more), Restart), true);
            var logs, serves := Manifest(m, c) + more, ConfigOf(m.bs.buildRoot, m.bs.scheme) == Some(c);
            Manifest(u, c) == logs
            && (serves ==> OnDisk(u, c).modules == Replay(logs))
            && (!serves ==> OnDisk(u, c) == OnDisk(m, c))
            && (OnDisk(u, c).modules == Replay(logs)
                <==> serves || Covered(OnDisk(m, c).modules, Flatten(Groups(Pending(m, c) + more)), []))
  {
    CatchUpFails(m, c);
    var t := Built(CatchUp(m, false), c, more);
    var r := Step(t, Restart);
    BuiltRight(m, CatchUp(m, false), c, more);
    assert Current(r.session) == ConfigOf(m.bs.buildRoot, m.bs.scheme) && r.bsTime == r.session.bsMtime;
    assert OnDisk(r, c) == OnDisk(m, c) && Manifest(r, c) == Manifest(m, c) + more;
    hide Right, CatchUp, Poll, Pending, StoresRight, CaughtUp, Step, Built, Distinct, Replay, Covered;
    RestartRight(t);
    PollCatchesUp(r);
    PollKeeps(r, c);
    if Current(r.session) == Some(c) {
      CaughtUpIsReplay(Poll(r, true), c);
    }
    CoveredReplay(m, c, more);
  }

  /** A poll leaves the manifests and its session's configuration alone, and every other configuration's store. */
  lemma PollKeeps(m: Machine, c: Config)
    requires m.bsTime == m.session.bsMtime
    ensures var u := Poll(m, true);
            Current(u.session) == Current(m.session) && u.manifests == m.manifests
            && (Current(m.session) != Some(c) ==> OnDisk(u, c) == OnDisk(m, c))
  {
    var n := ReloadStore(m);
    assert ReloadConfig(m) == m;
    assert Current(n.session) == Current(m.session) && n.manifests == m.manifests && n.files == m.files;
    hide ReloadStore, ReloadConfig;
    if Current(m.session).Some? {
      IngestKeeps(n, Current(m.session).value, c, LogsAfter(Manifest(n, Current(m.session).value), n.session.watermark));
    }
    hide IngestLogs, LogsAfter;
  }

  lemma IngestKeeps(m: Machine, d: Config, c: Config, logs: seq<Log>)
    requires Current(m.session) == Some(d)
    ensures var u := IngestLogs(m, d, logs, true);
            Current(u.session) == Some(d) && u.manifests == m.manifests && (d != c ==> OnDisk(u, c) == OnDisk(m, c))
  {
    hide MergeResult, Groups, Changes;
  }

  /** What is stored is the replay of everything exactly when everything else was covered. */
  lemma CoveredReplay(m: Machine, c: Config, more: seq<Log>)
    requires Right(m) && Current(m.session) == Some(c) && Pending(m, c) != []
    ensures OnDisk(m, c).modules == Replay(Manifest(m, c) + more)
       <==> Covered(OnDisk(m, c).modules, Flatten(Groups(Pending(m, c) + more)), [])
  {
    var logs, pending, stored := Manifest(m, c), Pending(m, c), OnDisk(m, c).modules;
    CatchUpFails(m, c);
    GroupsConcat(pending, more);
    FlattenAppend(Groups(pending), Groups(more));
    MergedAppend(stored, Flatten(Groups(pending)), Flatten(Groups(more)));
    assert (logs + more)[..|logs|] == logs && (logs + more)[|logs|..] == more;
    ReplayOn(logs + more, |logs|);
    SkippedIff(stored, Flatten(Groups(pending + more)), []);
    NothingMore(stored);
    NothingMore(Merged(stored, Flatten(Groups(pending + more))));
    hide Right, CatchUp, Pending, Merged, Flatten, Groups, Replay, Covered;
  }

  lemma NothingMore(stored: map<string, Entry>)
    ensures Merged(stored, []) == stored
  {}

  lemma RestartRight(m: Machine)
    requires StoresRight(m)
    ensures Right(Step(m, Restart))
  {
    RightReload(m, Step(m, Restart));
    hide Right, StoresRight;
  }

  /** A change of the store file's time alone heals it whatever was parsed: the same session's next poll reloads the
      store and leaves the cold replay. */
  lemma TouchHeals(m: Machine, c: Config, more: seq<Log>, time: nat)
    requires Right(m) && Current(m.session) == Some(c) && Pending(m, c) != [] && Distinct(Manifest(m, c) + more)
    requires m.bsTime == m.session.bsMtime && TimeOf(m, c) != Some(time)
    ensures var t := Built(CatchUp(m, false), c, more);
            var u := Poll(t.(times := t.times[c := time]), true);
            Manifest(u, c) == Manifest(m, c) + more && OnDisk(u, c).modules == Replay(Manifest(m, c) + more)
            && u.session.store == Some(Loaded(c, OnDisk(u, c)))
  {
    hide Right, CatchUp, Pending, StoresRight, CaughtUp, Distinct, Poll, Replay;
    CatchUpFails(m, c);
    BuiltRight(m, CatchUp(m, false), c, more);
    var t := Built(CatchUp(m, false), c, more);
    var touched := t.(times := t.times[c := time]);
    TouchedRight(t, c, time);
    assert ReloadConfig(touched) == touched;
    ReloadRight(touched, c);
    assert Manifest(touched, c) == Manifest(m, c) + more;
    PollKeeps(touched, c);
    TouchedPoll(touched, c);
  }

  lemma TouchedPoll(m: Machine, c: Config)
    requires ReloadConfig(m) == m && Right(ReloadStore(m)) && Current(Poll(m, true).session) == Some(c)
    ensures var u := Poll(m, true);
            OnDisk(u, c).modules == Replay(Manifest(u, c)) && u.session.store == Some(Loaded(c, OnDisk(u, c)))
  {
    hide Right, CaughtUp, ReloadStore, ReloadConfig, CatchUp, Replay;
    RightCatchUp(ReloadStore(m));
    CaughtUpIsReplay(Poll(m, true), c);
  }

  lemma ReloadRight(m: Machine, c: Config)
    requires StoresRight(m) && Current(m.session) == Some(c) && TimeOf(m, c) != m.session.storeMtime
    ensures Right(ReloadStore(m))
  {
    RightReload(m, ReloadStore(m));
    hide Right, StoresRight;
  }

  lemma TouchedRight(m: Machine, c: Config, time: nat)
    requires StoresRight(m)
    ensures StoresRight(m.(times := m.times[c := time]))
  {
    var t := m.(times := m.times[c := time]);
    assert forall d :: Manifest(t, d) == Manifest(m, d) && OnDisk(t, d) == OnDisk(m, d);
    hide StoreRight, Distinct;
  }

  /** More builds keep every store right. */
  lemma {:induction false} StoreGrows(logs: seq<Log>, more: seq<Log>, stored: Contents)
    requires StoreRight(logs, stored)
    ensures StoreRight(logs + more, stored)
    decreases |more|
  {
    hide StoreRight;
    if more == [] {
      assert logs + more == logs;
    } else {
      StoreGrows(logs, more[..|more| - 1], stored);
      StoreAppend(logs + more[..|more| - 1], more[|more| - 1], stored);
      assert logs + more == (logs + more[..|more| - 1]) + [more[|more| - 1]];
    }
  }

  lemma BuiltRight(m: Machine, s: Machine, c: Config, more: seq<Log>)
    requires Right(m) && s.files == m.files && s.manifests == m.manifests && Distinct(Manifest(m, c) + more)
    ensures StoresRight(Built(s, c, more))
  {
    hide StoreRight, Distinct;
    var t := Built(s, c, more);
    forall d ensures Distinct(Manifest(t, d)) && StoreRight(Manifest(t, d), OnDisk(t, d)) {
      assert Distinct(Manifest(m, d)) && StoreRight(Manifest(m, d), OnDisk(m, d));
      if d == c {
        StoreGrows(Manifest(m, c), more, OnDisk(m, c));
      }
    }
  }

  /** A run that loses a module for good: `App` is built and its save fails, `Kit` is built and saved. */
  lemma FailedSaveLoses(m0: Machine, c: Config, e: Entry)
    requires Init(m0) && m0.bs == BuildServerFile(Some(c.buildRoot), Some(c.scheme))
    ensures var app, kit := Log("1", [ParsedModule("App", e)]), Log("2", [ParsedModule("Kit", e)]);
            var m := Exec(m0, [Build(c, app), Restart]);
            var u := Poll(Built(CatchUp(m, false), c, [kit]), true);
            Manifest(u, c) == [app, kit] && OnDisk(u, c).modules != Replay([app, kit])
  {
    var app, kit := Log("1", [ParsedModule("App", e)]), Log("2", [ParsedModule("Kit", e)]);
    var ms := [Build(c, app), Restart];
    assert ms[..1] == [Build(c, app)] && ms[..1][..0] == [];
    assert Legal(m0, []) && Legal(m0, ms[..1]) && Legal(m0, ms);
    IngestInvariant(m0, ms);
    var m := Exec(m0, ms);
    assert m == Step(Step(m0, Build(c, app)), Restart);
    assert Manifest(m, c) == [app] && OnDisk(m, c) == Contents(map[], None) && m.session.watermark == None;
    assert Current(m.session) == Some(c) && m.bsTime == m.session.bsMtime;
    assert Pending(m, c) == [app] && [app] + [kit] == [app, kit];
    hide Exec, Legal, Right, Step, CatchUp, Poll, Init, Replay, Pending;
    FailedSaveIff(m, c, [kit]);
    FlatOne(app);
    FlatOne(kit);
    NotCovered(e);
  }

  lemma FlatOne(log: Log)
    ensures Flatten(Groups([log])) == log.parsed
  {
    assert Groups([log]) == [log.parsed];
    FlattenOne(log.parsed);
  }

  lemma NotCovered(e: Entry)
    ensures !Covered(map[], [ParsedModule("App", e)], [ParsedModule("Kit", e)])
  {
    assert LastParse([ParsedModule("App", e)], "App") == Some(e);
    assert LastParse([ParsedModule("Kit", e)][..0], "App") == None;
  }
}
