/** Build-log ingestion into the store and the session (bsp/ingest.rs, bsp/server.rs). Each handler runs here
    without interference; SessionSteps takes them apart. */
module Ingest {
  import opened Text
  import opened CompileStore

  /** The pair a store file belongs to. */
  datatype Config = Config(buildRoot: string, scheme: string)

  /** A retained build log, and what it parses to. */
  datatype Log = Log(name: string, parsed: seq<ParsedModule>)

  /** `buildServer.json`; a field may be missing or the file unreadable. */
  datatype BuildServerFile = BuildServerFile(buildRoot: Option<string>, scheme: Option<string>)

  datatype Loaded = Loaded(config: Config, contents: Contents)

  datatype Session = Session(
    buildRoot: Option<string>,
    scheme: Option<string>,
    store: Option<Loaded>,
    watermark: Option<string>,
    storeMtime: Option<nat>,
    bsMtime: Option<nat>)

  /** The session and all it reads and writes: the build server file, the store files with their times, and the
      manifest of each configuration, oldest log first. */
  datatype Machine = Machine(
    session: Session,
    bs: BuildServerFile,
    bsTime: Option<nat>,
    files: map<Config, Contents>,
    times: map<Config, nat>,
    clock: nat,
    manifests: map<Config, seq<Log>>)

  const NEW_SESSION := Session(None, None, None, None, None, None)

  function ConfigOf(buildRoot: Option<string>, scheme: Option<string>): Option<Config> {
    if buildRoot.Some? && scheme.Some? then Some(Config(buildRoot.value, scheme.value)) else None
  }

  function Current(s: Session): Option<Config> {
    ConfigOf(s.buildRoot, s.scheme)
  }

  function OnDisk(m: Machine, c: Config): Contents {
    if c in m.files then m.files[c] else Contents(map[], None)
  }

  function TimeOf(m: Machine, c: Config): Option<nat> {
    if c in m.times then Some(m.times[c]) else None
  }

  function Manifest(m: Machine, c: Config): seq<Log> {
    if c in m.manifests then m.manifests[c] else []
  }

  // -- the sections that run under the session lock ---------------------------

  /** `on_initialize`: the whole configuration with its store. The store's time is left as it was. */
  function Initialized(s: Session, file: BuildServerFile, store: Option<Loaded>, bsMtime: Option<nat>): Session {
    s.(buildRoot := file.buildRoot, scheme := file.scheme, store := store,
       watermark := if store.Some? then store.value.contents.lastLog else None, bsMtime := bsMtime)
  }

  /** `ingest_parsed`: adopt a finished merge, unless the configuration has been swapped away. */
  function Adopted(s: Session, c: Config, merged: Contents, mtime: Option<nat>, newest: Option<string>): Session {
    if Current(s) != Some(c) then s
    else s.(store := Some(Loaded(c, merged)), storeMtime := mtime, watermark := newest)
  }

  /** `reload_store_if_changed`: adopt a load of an externally written store under the same proviso. */
  function Reloaded(s: Session, c: Config, loaded: Contents, mtime: Option<nat>): Session {
    if Current(s) != Some(c) then s
    else s.(store := Some(Loaded(c, loaded)), storeMtime := mtime, watermark := loaded.lastLog)
  }

  /** `reload_config_if_changed`: swap the store only if the configuration really changed. */
  function Swapped(s: Session, file: BuildServerFile, bsMtime: Option<nat>, store: Option<Loaded>, mtime: Option<nat>): Session {
    var t := s.(bsMtime := bsMtime, buildRoot := file.buildRoot, scheme := file.scheme);
    if file.buildRoot == s.buildRoot && file.scheme == s.scheme then t
    else
      t.(store := store, watermark := if store.Some? then store.value.contents.lastLog else None,
         storeMtime := mtime)
  }

  // -- handlers ---------------------------------------------------------------

  function LoadFor(m: Machine, file: BuildServerFile): Option<Loaded> {
    match ConfigOf(file.buildRoot, file.scheme)
    case None => None
    case Some(c) => Some(Loaded(c, OnDisk(m, c)))
  }

  function Initialize(m: Machine): Machine {
    m.(session := Initialized(m.session, m.bs, LoadFor(m, m.bs), m.bsTime))
  }

  function Groups(logs: seq<Log>): seq<seq<ParsedModule>> {
    seq(|logs|, i requires 0 <= i < |logs| => logs[i].parsed)
  }

  function MergeResult(m: Machine, c: Config, groups: seq<seq<ParsedModule>>, newest: Option<string>): Contents {
    if Changes(groups) then MergedAll(OnDisk(m, c), groups, Advance(newest)) else OnDisk(m, c)
  }

  /** The disk after `merge_save_locked`. */
  function MergeSaved(m: Machine, c: Config, groups: seq<seq<ParsedModule>>, newest: Option<string>, saved: bool): Machine {
    if Changes(groups) && saved
    then m.(files := m.files[c := MergeResult(m, c, groups, newest)], times := m.times[c := m.clock], clock := m.clock + 1)
    else m
  }

  /** Merge the logs into the configuration's store, then adopt the result. */
  function IngestLogs(m: Machine, c: Config, logs: seq<Log>, saved: bool): Machine {
    var newest := if logs == [] then None else Some(logs[|logs| - 1].name);
    var after := MergeSaved(m, c, Groups(logs), newest, saved);
    after.(session := Adopted(after.session, c, MergeResult(m, c, Groups(logs), newest), TimeOf(after, c), newest))
  }

  function Position(logs: seq<Log>, name: string): Option<nat> {
    if logs == [] then None
    else if logs[0].name == name then Some(0)
    else match Position(logs[1..], name)
         case None => None
         case Some(i) => Some(i + 1)
  }

  /** The logs strictly after the watermark; all without one; only the newest if it is gone from the manifest. */
  function LogsAfter(logs: seq<Log>, watermark: Option<string>): (r: seq<Log>)
    ensures |r| <= |logs| && r == logs[|logs| - |r|..]
  {
    match watermark
    case None => logs
    case Some(w) =>
      match Position(logs, w)
      case Some(i) => if i < |logs| then logs[i + 1..] else []
      case None => if logs == [] then [] else logs[|logs| - 1..]
  }

  /** Replay everything retained into an empty store; a warm store only notes the file's time. */
  function Bootstrap(m: Machine, saved: bool): Machine {
    match Current(m.session)
    case None => m
    case Some(c) =>
      if m.session.store.Some? && m.session.store.value.contents.modules != map[]
      then m.(session := m.session.(storeMtime := TimeOf(m, c)))
      else IngestLogs(m, c, Manifest(m, c), saved)
  }

  function ReloadStore(m: Machine): Machine {
    match Current(m.session)
    case None => m
    case Some(c) =>
      if TimeOf(m, c) == m.session.storeMtime then m
      else m.(session := Reloaded(m.session, c, OnDisk(m, c), TimeOf(m, c)))
  }

  function ReloadConfig(m: Machine): Machine {
    if m.bsTime == m.session.bsMtime then m
    else
      var mtime := match ConfigOf(m.bs.buildRoot, m.bs.scheme) case None => None case Some(c) => TimeOf(m, c);
      m.(session := Swapped(m.session, m.bs, m.bsTime, LoadFor(m, m.bs), mtime))
  }

  /** The last part of a poll: catch up on every log after the watermark. */
  function CatchUp(m: Machine, saved: bool): Machine {
    match Current(m.session)
    case None => m
    case Some(c) =>
      var logs := Manifest(m, c);
      if logs == [] || Some(logs[|logs| - 1].name) == m.session.watermark then m
      else
        var pending := LogsAfter(logs, m.session.watermark);
        if pending == [] then m else IngestLogs(m, c, pending, saved)
  }

  function Poll(m: Machine, saved: bool): Machine {
    CatchUp(ReloadStore(ReloadConfig(m)), saved)
  }

  // -- the server object ------------------------------------------------------

  class BuildServer {
    var session: Session
    var ingestStarted: bool
    /** Ingest loops spawned so far. */
    var loops: nat
    var bs: BuildServerFile
    var bsTime: Option<nat>
    var files: map<Config, Contents>
    var times: map<Config, nat>
    var clock: nat
    var manifests: map<Config, seq<Log>>

    ghost function Now(): Machine
      reads this
    {
      Machine(session, bs, bsTime, files, times, clock, manifests)
    }

    constructor (bs: BuildServerFile, bsTime: Option<nat>, files: map<Config, Contents>, times: map<Config, nat>, clock: nat,
                 manifests: map<Config, seq<Log>>)
      ensures Now() == Machine(NEW_SESSION, bs, bsTime, files, times, clock, manifests)
      ensures !ingestStarted && loops == 0
    {
      session, ingestStarted, loops := NEW_SESSION, false, 0;
      this.bs, this.bsTime, this.files, this.times, this.clock := bs, bsTime, files, times, clock;
      this.manifests := manifests;
    }

    /** `build/initialized` starts the ingest loop once, however often it arrives. */
    method StartIngest()
      requires loops == if ingestStarted then 1 else 0
      modifies this`ingestStarted, this`loops
      ensures ingestStarted && loops == 1
    {
      var before := ingestStarted;
      ingestStarted := true;
      if before {
        return;
      }
      loops := loops + 1;
    }

    method Load(file: BuildServerFile) returns (r: Option<Loaded>)
      ensures r == LoadFor(Now(), file)
    {
      if file.buildRoot.None? || file.scheme.None? {
        return None;
      }
      var c := Config(file.buildRoot.value, file.scheme.value);
      r := Some(Loaded(c, if c in files then files[c] else Contents(map[], None)));
    }

    method OnInitialize()
      modifies this`session
      ensures Now() == Initialize(old(Now()))
    {
      var store := Load(bs);
      session := session.(bsMtime := bsTime,
                          watermark := if store.Some? then store.value.contents.lastLog else None,
                          store := store, buildRoot := bs.buildRoot, scheme := bs.scheme);
    }

    /** Re-read, merge every parsed log and save, all under the store's lock. */
    method MergeSave(c: Config, logs: seq<Log>, newest: Option<string>, saved: bool) returns (merged: Contents)
      modifies this`files, this`times, this`clock
      ensures Now() == MergeSaved(old(Now()), c, Groups(logs), newest, saved)
      ensures merged == MergeResult(old(Now()), c, Groups(logs), newest)
    {
      hide MergedAll, Changes;
      merged := if c in files then files[c] else Contents(map[], None);
      var changed := AnyNonEmpty(Groups(logs));
      if changed {
        merged := MergedAll(merged, Groups(logs), Advance(newest));
        if saved {
          files, times, clock := files[c := merged], times[c := clock], clock + 1;
        }
      }
    }

    method IngestParsed(c: Config, logs: seq<Log>, saved: bool)
      modifies this
      ensures Now() == IngestLogs(old(Now()), c, logs, saved)
      ensures ingestStarted == old(ingestStarted) && loops == old(loops)
    {
      hide MergeResult, Groups;
      var newest := if logs == [] then None else Some(logs[|logs| - 1].name);
      var merged := MergeSave(c, logs, newest, saved);
      if session.buildRoot != Some(c.buildRoot) || session.scheme != Some(c.scheme) {
        return;
      }
      var mtime := if c in times then Some(times[c]) else None;
      session := session.(store := Some(Loaded(c, merged)), storeMtime := mtime, watermark := newest);
    }

    method Boot(saved: bool)
      modifies this
      ensures Now() == Bootstrap(old(Now()), saved)
    {
      hide IngestLogs;
      if session.buildRoot.None? || session.scheme.None? {
        return;
      }
      var c := Config(session.buildRoot.value, session.scheme.value);
      var empty := session.store.None? || session.store.value.contents.modules == map[];
      if !empty {
        session := session.(storeMtime := if c in times then Some(times[c]) else None);
        return;
      }
      IngestParsed(c, if c in manifests then manifests[c] else [], saved);
    }

    method ReloadStoreIfChanged()
      modifies this`session
      ensures Now() == ReloadStore(old(Now()))
    {
      if session.buildRoot.None? || session.scheme.None? {
        return;
      }
      var c := Config(session.buildRoot.value, session.scheme.value);
      var mtime := if c in times then Some(times[c]) else None;
      if mtime != session.storeMtime {
        var store := if c in files then files[c] else Contents(map[], None);
        session := session.(watermark := store.lastLog, store := Some(Loaded(c, store)), storeMtime := mtime);
      }
    }

    method ReloadConfigIfChanged()
      modifies this`session
      ensures Now() == ReloadConfig(old(Now()))
    {
      if bsTime == session.bsMtime {
        return;
      }
      var switched := bs.buildRoot != session.buildRoot || bs.scheme != session.scheme;
      session := session.(bsMtime := bsTime, buildRoot := bs.buildRoot, scheme := bs.scheme);
      if !switched {
        return;
      }
      var store := Load(bs);
      session := session.(store := store);
      session := session.(watermark := if store.Some? then store.value.contents.lastLog else None);
      session := session.(storeMtime := if store.Some? && store.value.config in times
                                        then Some(times[store.value.config]) else None);
    }

    method PollOnce(saved: bool)
      modifies this
      ensures Now() == Poll(old(Now()), saved)
    {
      hide ReloadStore, ReloadConfig, IngestLogs;
      ReloadConfigIfChanged();
      ReloadStoreIfChanged();
      if session.buildRoot.None? || session.scheme.None? {
        return;
      }
      var c := Config(session.buildRoot.value, session.scheme.value);
      var logs := if c in manifests then manifests[c] else [];
      if logs == [] || Some(logs[|logs| - 1].name) == session.watermark {
        return;
      }
      var pending := LogsAfter(logs, session.watermark);
      if pending == [] {
        return;
      }
      IngestParsed(c, pending, saved);
    }
  }
}
