/** Single polls of the ingest loop (bsp/ingest.rs): they settle, and what they do when a watermark has gone. */
module IngestPolls {
  import opened Text
  import opened CompileStore
  import opened Ingest

  // -- a poll leaves nothing for the next -------------------------------------

  /** The session has seen the present build server file. */
  predicate ConfigSeen(m: Machine) {
    m.session.bsMtime == m.bsTime
  }

  /** The session has seen the present store file, if it is to have one. */
  predicate StoreSeen(m: Machine) {
    Current(m.session).Some? ==> m.session.storeMtime == TimeOf(m, Current(m.session).value)
  }

  /** The watermark is the newest log of the manifest, if there is one. */
  predicate LogsSeen(m: Machine) {
    Current(m.session).Some? ==>
      var logs := Manifest(m, Current(m.session).value);
      logs != [] ==> m.session.watermark == Some(logs[|logs| - 1].name)
  }

  lemma ConfigIsSeen(m: Machine)
    ensures ConfigSeen(ReloadConfig(m)) && ReloadConfig(m) == m.(session := ReloadConfig(m).session)
    ensures ConfigSeen(m) ==> ReloadConfig(m) == m
  {}

  lemma StoreIsSeen(m: Machine)
    ensures StoreSeen(ReloadStore(m)) && ReloadStore(m) == m.(session := ReloadStore(m).session)
    ensures ReloadStore(m).session.bsMtime == m.session.bsMtime
    ensures StoreSeen(m) ==> ReloadStore(m) == m
  {
    hide OnDisk;
  }

  /** An ingest of the session's own configuration is adopted with the time of the file it wrote, or left. */
  lemma IngestIsSeen(m: Machine, c: Config, logs: seq<Log>, saved: bool)
    requires Current(m.session) == Some(c)
    ensures var t := IngestLogs(m, c, logs, saved);
            StoreSeen(t) && t.session.bsMtime == m.session.bsMtime && t.bsTime == m.bsTime && t.manifests == m.manifests
            && Current(t.session) == Some(c)
            && t.session.watermark == if logs == [] then None else Some(logs[|logs| - 1].name)
  {
    hide MergeResult, Changes;
  }

  lemma LogsAreSeen(m: Machine, saved: bool)
    requires StoreSeen(m)
    ensures var t := CatchUp(m, saved);
            StoreSeen(t) && LogsSeen(t) && t.session.bsMtime == m.session.bsMtime && t.bsTime == m.bsTime
    ensures LogsSeen(m) ==> CatchUp(m, saved) == m
  {
    if Current(m.session).Some? {
      var c := Current(m.session).value;
      var logs := Manifest(m, c);
      var pending := LogsAfter(logs, m.session.watermark);
      NothingPending(logs, m.session.watermark);
      IngestIsSeen(m, c, pending, saved);
      hide IngestLogs, LogsAfter, TimeOf;
    }
  }

  /** Nothing is pending only when the watermark is the newest log. */
  lemma {:induction false} NothingPending(logs: seq<Log>, watermark: Option<string>)
    ensures logs != [] && LogsAfter(logs, watermark) == [] ==> watermark == Some(logs[|logs| - 1].name)
    ensures LogsAfter(logs, watermark) != [] ==>
              LogsAfter(logs, watermark)[|LogsAfter(logs, watermark)| - 1] == logs[|logs| - 1]
  {
    if watermark.Some? {
      PositionNamed(logs, watermark.value);
    }
  }

  lemma {:induction false} PositionNamed(logs: seq<Log>, name: string)
    ensures match Position(logs, name)
            case Some(i) => i < |logs| && logs[i].name == name && forall k :: 0 <= k < i ==> logs[k].name != name
            case None => forall k :: 0 <= k < |logs| ==> logs[k].name != name
  {
    if logs != [] {
      PositionNamed(logs[1..], name);
      assert forall k :: 0 < k < |logs| ==> logs[k] == logs[1..][k - 1];
    }
  }

  /** A second poll with nothing changed in between does nothing at all, whether or not the first could save. */
  lemma PollSettles(m: Machine, saved: bool, again: bool)
    ensures Poll(Poll(m, saved), again) == Poll(m, saved)
  {
    var a := ReloadConfig(m);
    var b := ReloadStore(a);
    var t := CatchUp(b, saved);
    ConfigIsSeen(m);
    StoreIsSeen(a);
    LogsAreSeen(b, saved);
    ConfigIsSeen(t);
    StoreIsSeen(t);
    LogsAreSeen(t, again);
    hide ReloadConfig, ReloadStore, CatchUp, StoreSeen, LogsSeen;
  }

  /** After a boot, warm or cold, the first poll does not take the store for somebody else's. */
  lemma BootIsSeen(m: Machine, saved: bool)
    ensures ReloadStore(Bootstrap(m, saved)) == Bootstrap(m, saved)
  {
    if Current(m.session).Some? {
      IngestIsSeen(m, Current(m.session).value, Manifest(m, Current(m.session).value), saved);
    }
    StoreIsSeen(Bootstrap(m, saved));
    hide IngestLogs, ReloadStore;
  }

  /** An initialized session is that of the build server file: its configuration, the store on disk with the
      watermark in it, or neither; and the first poll does not take the file for a new one. */
  lemma InitializeServes(m: Machine)
    ensures var s := Initialize(m).session;
            s.buildRoot == m.bs.buildRoot && s.scheme == m.bs.scheme && s.storeMtime == m.session.storeMtime
            && (m.bs.buildRoot.Some? && m.bs.scheme.Some? ==>
                  var c := Config(m.bs.buildRoot.value, m.bs.scheme.value);
                  s.store == Some(Loaded(c, OnDisk(m, c))) && s.watermark == OnDisk(m, c).lastLog)
            && (m.bs.buildRoot.None? || m.bs.scheme.None? ==> s.store.None? && s.watermark.None?)
    ensures ReloadConfig(Initialize(m)) == Initialize(m)
  {}

  /** So is the session after a poll that finds another build server file; the store's time comes with it. */
  lemma SwitchServes(m: Machine)
    requires m.bsTime != m.session.bsMtime
    ensures var s := ReloadConfig(m).session;
            s.buildRoot == m.bs.buildRoot && s.scheme == m.bs.scheme && s.bsMtime == m.bsTime
    ensures m.bs.buildRoot == m.session.buildRoot && m.bs.scheme == m.session.scheme ==>
              ReloadConfig(m) == m.(session := m.session.(bsMtime := m.bsTime))
    ensures m.bs.buildRoot != m.session.buildRoot || m.bs.scheme != m.session.scheme ==>
              var s := ReloadConfig(m).session;
              if m.bs.buildRoot.Some? && m.bs.scheme.Some? then
                var c := Config(m.bs.buildRoot.value, m.bs.scheme.value);
                s.store == Some(Loaded(c, OnDisk(m, c))) && s.watermark == OnDisk(m, c).lastLog
                && s.storeMtime == TimeOf(m, c)
              else s.store.None? && s.watermark.None? && s.storeMtime.None?
  {}

  // -- which logs are ingested ------------------------------------------------

  /** When the watermark has gone from the manifest, only the newest log is ingested, and it becomes the watermark:
      the store heals from there instead of replaying everything. */
  lemma WatermarkGone(m: Machine, c: Config, older: seq<Log>, newest: Log, w: string)
    requires Current(m.session) == Some(c) && Manifest(m, c) == older + [newest] && m.session.watermark == Some(w)
    requires newest.name != w && forall k :: 0 <= k < |older| ==> older[k].name != w
    ensures var t := CatchUp(m, true);
            OnDisk(t, c).modules == Merged(OnDisk(m, c).modules, newest.parsed)
            && t.session.store == Some(Loaded(c, OnDisk(t, c))) && t.session.watermark == Some(newest.name)
  {
    var logs := Manifest(m, c);
    PositionNamed(logs, w);
    assert forall k :: 0 <= k < |older| ==> logs[k] == older[k];
    assert Position(logs, w).None?;
    assert LogsAfter(logs, Some(w)) == [newest];
    OneGroup(newest);
    IngestedOne(m, c, newest);
    hide Position, LogsAfter, IngestLogs, Merged;
  }

  lemma OneGroup(log: Log)
    ensures Groups([log]) == [log.parsed] && Flatten(Groups([log])) == log.parsed
    ensures Changes(Groups([log])) <==> log.parsed != []
  {
    assert Groups([log]) == [log.parsed];
    FlattenOne(log.parsed);
    if log.parsed != [] {
      assert Groups([log])[0] != [];
    }
  }

  lemma IngestedOne(m: Machine, c: Config, log: Log)
    requires Current(m.session) == Some(c)
    ensures var t := IngestLogs(m, c, [log], true);
            OnDisk(t, c).modules == Merged(OnDisk(m, c).modules, log.parsed)
            && t.session.store == Some(Loaded(c, OnDisk(t, c))) && t.session.watermark == Some(log.name)
  {
    OneGroup(log);
    hide Merged, Changes, Groups, Flatten;
    assert log.parsed == [] ==> Merged(OnDisk(m, c).modules, log.parsed) == OnDisk(m, c).modules by {
      NoneMerged(OnDisk(m, c).modules);
    }
  }

  lemma NoneMerged(modules: map<string, Entry>)
    ensures Merged(modules, []) == modules
  {}

  /** When it is there, exactly the logs behind it are pending; without one, all are. */
  lemma PendingSpelledOut(older: seq<Log>, seen: Log, newer: seq<Log>)
    requires forall k :: 0 <= k < |older| ==> older[k].name != seen.name
    ensures LogsAfter(older + [seen] + newer, Some(seen.name)) == newer
    ensures LogsAfter(older + [seen] + newer, None) == older + [seen] + newer
  {
    var logs := older + [seen] + newer;
    PositionNamed(logs, seen.name);
    assert logs[|older|] == seen && forall k :: 0 <= k < |older| ==> logs[k] == older[k];
    assert Position(logs, seen.name) == Some(|older|);
    assert logs[|older| + 1..] == newer;
  }
}
