# Verification of the xcode-dap core

A Dafny model of the logic inside ZedXcode's native binary, and proofs about it. Each module follows one source file
or one component:

- **The DAP proxy** between Zed and lldb-dap: `Peek` looks into frames, `Proxy` is the state machine with its routing
  loop (a class whose methods are the handlers, each proved equal to a transition function on its whole state),
  `ProxyRuns`, `ProxyTraffic`, `ProxyResponses`, `ProxyDisconnects` and `ProxyFate` hold over whole runs.
  `ProxyHistory` says what a run does in terms of the frames that arrived alone, with their member names written out:
  the state at every loop head, everything said in either direction, the exit code and everything done to the app.
- **The pidfile**: `Pidfile` is the file and its text, `PidfileOwnership` the ownership protocol
  among any number of proxies, `ProxyFleet` whole proxy state machines running it together.
- **The Content-Length codec**: `Framing`.
- **The surgical JSONC merge**: `JsoncLexer` and `JsoncStrip` prove the two independently written lexers against one
  classification of every character, `JsoncSplice` places a block, `JsoncMarkers` finds it again and rewrites the
  file, `JsoncAlgebra` says what merging, replacing and removing do to one another. `JsoncPieces` fixes the
  classification itself: every text is a sequence of code, strings and comments, and is classified as that.
- **The compile store**: `CompileStore` (merging, indexes, lookups), `StoreWriters` (several processes under the lock).
- **Ingestion**: `Ingest` (the session and its handlers), `IngestPolls` (what one boot, switch or poll comes to),
  `IngestReplay` (any schedule of polls, restarts and switches), `SessionSteps` (handlers interleaved at their locks).
- **Build logs**: `Slf` (the SLF0 tokenizer and its encoder), `ShellWords` (the word splitter), `Sections`.
- **Small machines**: `Calendar` (civil dates), `Tailer` (the log tailer).
- `Text` holds bytes, whitespace, UTF-8 and decimal numerals as Rust defines them.

A run is a list of events; `Exec` folds the transition function over it, and `Legal` says that every event could
happen when it did. Theorems over runs quantify over all such lists. Clocks, the network, child processes and the file
system appear as what they deliver: the outcome of a send, of a save, of a read, the result of the pipeline.

`dafny verify dfyconfig.toml` checks everything.

## Where the code and its promises part

- *The splice.* `insert_before_final_closer` takes `trim` for blankness while its lexer takes ASCII whitespace. When
  the last significant character before the bracket is whitespace only to `trim` and shares the bracket's line, the
  comma lands behind the block (`CommaFirstFails`); merging again then changes the file (`MergeTwiceIff`) and removing
  the block loses a character of the original (`RemoveAfterMerge`). `BlockIsLastIff` is the exact condition, and
  `OrdinaryWhitespace` shows that files with only space, tab, CR, LF and FF meet it. JSON does not admit the other
  characters, so such a file fails validation.
- *Stripping twice.* The second pass of `strip_jsonc` is not idempotent (`StripTwiceFails`); `StripTwiceIff` says
  exactly when it is.
- *The merged store.* The documentation of `merge_save_locked` says that the store handed back equals what was
  persisted. It does exactly when the save succeeded, nothing was parsed, or the merge changed nothing anyway
  (`HandedBackIff`); `HandedBackFails` is a merge where it does not.
- *A failed save.* The session's watermark passes the logs whose save failed. If the same session polls on with
  nothing reloaded, the store on disk is still the cold replay exactly when the skipped modules were parsed again or
  already stored as parsed (`FailedSaveIff`); `FailedSaveLoses` is a run that loses a module. Any change of the store
  file's time heals it whatever was parsed (`TouchHeals`). So does a restart that serves the same configuration; one
  that serves another leaves that store as it was, short of the logs unless they were covered (`RestartHeals`).
- *A dropped app.* When sending the attach request fails, the launched app is neither terminated nor kept
  (`AppDropped`); `AppFate` states the fate of the app with that branch as it is, `AppFateByFrames` by the frames.
- *A second answer.* A disconnect that lldb-dap answers without exiting is answered again at the deadline
  (`AnsweredTwice`); a mid-build disconnect followed by another one is never answered. `DisconnectAnswers` counts the
  answers to every disconnect.
- *Truncation.* A capture file truncated and grown back past the tailer's offset between two polls is not seen to be
  truncated. The poll that meets the new content goes on as a fresh start exactly when the file is found too short or
  the partial line continues into the content (`FreshStartIff`); `UnseenTruncation` is a pair of contents of which a
  line is emitted that belongs to neither.
- *Pids.* `superseded` parses an unsigned pid, `remove_at` a signed one. They agree on what proxies write up to the
  greatest `i32`; beyond it a proxy reads itself as owner but does not remove its file (`LineRead`).
- *A half-written pidfile.* The pidfile is not replaced atomically. A claim whose write fails can make the owner read
  itself superseded although nobody claimed, and a line cut short can name another proxy, which then takes the
  simulator for its own (`HandedBackEnds`, `HalfALine`). `SupersededIff` and `DecisionExact` hold with whatever failed
  writes leave; `TerminateAfterSuccessor` says exactly when a succeeded proxy still ends the app.

## Model

| member | source | states |
|---|---|---|
| Framing.ParseHeader | crates/xcode-dap/src/dap/framing.rs:61-84 | the header loop computes the declared length of the first header block, the last length line winning, with all its error cases |
| Framing.HeaderStable | crates/xcode-dap/src/dap/framing.rs:61-84 | once a header block is complete, well formed or not, further bytes never change the answer |
| Framing.HeaderSpelledOut | crates/xcode-dap/src/dap/framing.rs:61-84 | any block of lines: the last `Content-Length` line decides, by name in any letter case and a 64-bit numeral; no other line has a say |
| Framing.HeaderNotText | crates/xcode-dap/src/dap/framing.rs:61-62 | a block is refused as text exactly when it is no string's UTF-8 |
| Framing.DapReader.NextMessage | crates/xcode-dap/src/dap/framing.rs:26-57 | one call delivers the next frame of the remaining bytes however they are chunked; a cancelled call loses no byte |
| Framing.DapReader.ReadAll | crates/xcode-dap/src/dap/framing.rs:26-57 | the messages and the end of a stream are a function of its bytes |
| Framing.ReadInterrupted | crates/xcode-dap/src/dap/framing.rs:26-57 | any sequence of calls, each cancelled after any patience, delivers the first messages of the stream and leaves exactly the others |
| Framing.DrainStream | crates/xcode-dap/src/dap/proxy.rs:260-277 | chunking independence: any split of concatenated frames into reads gives back exactly the bodies, then a clean end |
| Framing.FrameRoundTrip | crates/xcode-dap/src/dap/framing.rs:93-99 | a frame at the head of any stream is read back exactly, the rest untouched |
| Framing.FramesRoundTrip | crates/xcode-dap/src/dap/framing.rs:26-99 | concatenated frames decode to their bodies in order, then end cleanly |
| Framing.CutStream | crates/xcode-dap/src/dap/framing.rs:39-53 | a stream that breaks off anywhere inside a frame gives the bodies before it, then the error with the number of bytes left |
| Framing.FindSubsliceFirst | crates/xcode-dap/src/dap/framing.rs:86-91 | the separator found is the first one |
| JsoncLexer.ScanStructure | crates/xcode-dap/src/setup/jsonc.rs:204-271 | the mode machine finds exactly what the shared classification calls the last structural bracket and the last significant character before it |
| JsoncLexer.StructureSpec | crates/xcode-dap/src/setup/jsonc.rs:204-271 | it finds a bracket and a significant character where there is one, and none comes later |
| JsoncLexer.StructureSpelledOut | crates/xcode-dap/src/setup/jsonc.rs:204-271 | the same in characters: which brackets and which blanks |
| JsoncPieces.PiecesClassified | crates/xcode-dap/src/setup/jsonc.rs:204-350 | a text written as pieces of code, strings with escapes and comments, finished or broken off, is classified as those pieces |
| JsoncPieces.EveryText | crates/xcode-dap/src/setup/jsonc.rs:204-350 | and every text is written so |
| JsoncLexer.RemoveComments | crates/xcode-dap/src/setup/jsonc.rs:312-350 | the other lexer keeps exactly the code and string characters of the same classification: the two agree on every text |
| JsoncLexer.Compose | crates/xcode-dap/src/setup/jsonc.rs:204-271 | lexing a concatenation is lexing the parts |
| JsoncStrip.UncommentedIdempotent | crates/xcode-dap/src/setup/jsonc.rs:312-350 | removing comments makes no new one: pass 1 is idempotent and every string survives it |
| JsoncStrip.RemoveTrailingCommas | crates/xcode-dap/src/setup/jsonc.rs:351-388 | a comma outside strings is dropped exactly when `]` or `}` comes next, blanks aside; nothing else is |
| JsoncStrip.StripJsonc | crates/xcode-dap/src/setup/jsonc.rs:312-388 | exactly the comments go, then exactly the trailing commas of what is left |
| JsoncStrip.StripsExactly | crates/xcode-dap/src/setup/jsonc.rs:312-388 | which characters those are, one by one, on every text |
| JsoncStrip.StringsSurvive | crates/xcode-dap/src/setup/jsonc.rs:312-388 | stripping leaves no comment and every string literal as it was |
| JsoncStrip.StripTwiceIff | crates/xcode-dap/src/setup/jsonc.rs:351-388 | stripping again changes nothing exactly when no trailing comma was doubled |
| JsoncStrip.StripTwiceFails | crates/xcode-dap/src/setup/jsonc.rs:351-388 | a text on which it does change something |
| JsoncSplice.InsertBeforeFinalCloser | crates/xcode-dap/src/setup/jsonc.rs:275-307 | the insertion puts comma and block where the specification says, and refuses a file without a bracket |
| JsoncSplice.InsertionSpelledOut | crates/xcode-dap/src/setup/jsonc.rs:275-307 | where that is: in front of the line of the bracket or of the bracket, with or without a comma behind the last significant character |
| JsoncSplice.BlockPointNormal | crates/xcode-dap/src/setup/jsonc.rs:287-307 | the insertion point lies outside every string and comment |
| JsoncSplice.SpliceTheorem | crates/xcode-dap/src/setup/jsonc.rs:275-307 | the merged file is the original with at most one comma and the region put in, and every character of both is classified as it was alone |
| JsoncSplice.StrippedSplice | crates/xcode-dap/src/setup/jsonc.rs:275-388 | comment-stripping the merged file gives stripped prefix, at most one comma, stripped block, stripped suffix |
| JsoncSplice.SeparatorBeforeBlock | crates/xcode-dap/src/setup/jsonc.rs:290-300 | what last precedes the block is an opening bracket or one comma: no comma is ever doubled |
| JsoncSplice.BlockIsLastIff | crates/xcode-dap/src/setup/jsonc.rs:275-307 | the block becomes the last element exactly when the comma comes before it |
| JsoncSplice.OrdinaryWhitespace | crates/xcode-dap/src/setup/jsonc.rs:275-307 | which it does on every file with only ordinary whitespace |
| JsoncSplice.CommaFirstFails | crates/xcode-dap/src/setup/jsonc.rs:275-307 | a file on which it does not |
| JsoncMarkers.FindMarkerRegion | crates/xcode-dap/src/setup/jsonc.rs:168-198 | the first start and end marker lines, none, or a corrupt pair |
| JsoncMarkers.AbsentSpelledOut | crates/xcode-dap/src/setup/jsonc.rs:168-198 | there is none exactly when no line is a marker, the markers written out |
| JsoncMarkers.RegionSpelledOut | crates/xcode-dap/src/setup/jsonc.rs:168-198 | with both it runs from the first start line to the end of the first end line, or is corrupt |
| JsoncMarkers.CorruptSpelledOut | crates/xcode-dap/src/setup/jsonc.rs:168-198 | with one of the two it is corrupt |
| JsoncMarkers.RenderedSpelledOut | crates/xcode-dap/src/setup/jsonc.rs:157-166 | what a rendered region looks like |
| JsoncMarkers.FoundAfter | crates/xcode-dap/src/setup/jsonc.rs:157-198 | a rendered region behind marker-free text is found where it was put |
| JsoncMarkers.ConfigFile.WriteValidated | crates/xcode-dap/src/setup/jsonc.rs:140-155 | the error of every failure of backup, write, parsing and restore; the new text stays exactly when it is valid or could not be read back; a failed validation puts the original back; the original is always in the file or in a backup |
| JsoncMarkers.ConfigFile.MergeMarkerBlock | crates/xcode-dap/src/setup/jsonc.rs:42-66 | outcome, content and backups in every case: missing file, corrupt markers, no bracket, unchanged, replaced, inserted, and every failure of the write; after a failed validation the file is as it was |
| JsoncMarkers.ConfigFile.RemoveMarkerBlock | crates/xcode-dap/src/setup/jsonc.rs:68-84 | the region and its newline go through the same validated write, or the file stays as it was, also after a failed validation |
| JsoncAlgebra.MergeAlgebra | crates/xcode-dap/src/setup/jsonc.rs:42-66 | merging twice is unchanged; merging a second block over a first gives what merging the second alone gives |
| JsoncAlgebra.MergeTwiceIff | crates/xcode-dap/src/setup/jsonc.rs:42-66 | for any file with a bracket, merging twice is unchanged exactly when the comma came first |
| JsoncAlgebra.RemoveAfterMerge | crates/xcode-dap/src/setup/jsonc.rs:42-84 | for any file with a bracket: removing restores the original plus the added comma and newline exactly when the comma came first, the very original exactly when besides no comma was needed and the bracket stood on its own line, and what it leaves otherwise |
| JsoncAlgebra.RoundSettles | crates/xcode-dap/src/setup/jsonc.rs:42-84 | after one round no comma is needed and the bracket has its own line |
| JsoncAlgebra.SecondRoundExact | crates/xcode-dap/src/setup/jsonc.rs:42-84 | from the second round on, merge then remove is exact, whatever the block |
| Proxy.Proxy.constructor | crates/xcode-dap/src/dap/proxy.rs:279-304 | the initial state, with the initialize frame already forwarded |
| Proxy.Proxy.OnClientMessage | crates/xcode-dap/src/dap/proxy.rs:437-507 | the whole new state and the loop action for every client frame |
| Proxy.Proxy.OnLaunch | crates/xcode-dap/src/dap/proxy.rs:513-591 | a second launch is refused, a bad configuration fails the launch, otherwise the pipeline runs |
| Proxy.Proxy.Disconnects | crates/xcode-dap/src/dap/proxy.rs:447-499 | a disconnect cancels the pipeline, is answered after the session ended, or is forwarded with a bounded wait |
| Proxy.Proxy.OnPipelineResult | crates/xcode-dap/src/dap/proxy.rs:594-662 | wind down after a cancel, fail, or claim the simulator and attach; a failed send drops the app |
| Proxy.Proxy.FailWith | crates/xcode-dap/src/dap/proxy.rs:666-674 | error response, stderr output, terminated, exit 1 |
| Proxy.Proxy.OnChildMessage | crates/xcode-dap/src/dap/proxy.rs:676-731 | internal responses are dropped or rewritten onto the launch, all else passes and may end the session |
| Proxy.Proxy.LaunchAnswered | crates/xcode-dap/src/dap/proxy.rs:679-703 | the attach response becomes the launch response, and success starts the tailers once |
| Proxy.Proxy.BeginTailing | crates/xcode-dap/src/dap/proxy.rs:735-777 | the tailers start once, and only for a session |
| Proxy.Proxy.Announce | crates/xcode-dap/src/dap/proxy.rs:779-789 | a superseded session is announced at most once |
| Proxy.Proxy.TakeSeq | crates/xcode-dap/src/dap/proxy.rs:816-820 | hands out the next internal number |
| Proxy.Proxy.Handle | crates/xcode-dap/src/dap/proxy.rs:316-397 | one turn of the loop is one transition |
| Proxy.Proxy.Route | crates/xcode-dap/src/dap/proxy.rs:316-397 | the loop computes the run of its events |
| Proxy.Proxy.TearDown | crates/xcode-dap/src/dap/proxy.rs:845-918 | drain, last lines, stop the app, release the pidfile, in that order |
| ProxyRuns.LifecycleHolds | crates/xcode-dap/src/dap/proxy.rs:437-789 | at every loop head the run is idle, building or debugging, with the flags each phase allows |
| ProxyRuns.LaunchSeqOnce | crates/xcode-dap/src/dap/proxy.rs:513-530 | the launch number is written once in a run |
| ProxyHistory.StateIsHistory | crates/xcode-dap/src/dap/proxy.rs:316-820 | at every loop head the flags, numbers and app that the state holds are functions of the frames, results and timers so far |
| ProxyHistory.LegalIsPossible | crates/xcode-dap/src/dap/proxy.rs:316-397 | which events can come next and what each does to the loop, its exit code included, follow from that history |
| ProxyHistory.TrafficIsHistory | crates/xcode-dap/src/dap/proxy.rs:437-820 | everything the client has heard and lldb-dap has been asked, in order, from the frames alone |
| ProxyHistory.FlagsByFrames | crates/xcode-dap/src/dap/peek.rs:190-205 | the debuggee counts as exited exactly when the first `exited` or `terminated` event is an `exited`; the session as ended on either; the debugger as attached on a successful answer to the attach request |
| ProxyTraffic.StepSends | crates/xcode-dap/src/dap/proxy.rs:437-813 | each turn only appends to either channel, and exactly these frames and messages |
| ProxyTraffic.PhaseFromEvents | crates/xcode-dap/src/dap/proxy.rs:513-662 | whether the pipeline runs can be told from the events alone |
| ProxyTraffic.Passthrough | crates/xcode-dap/src/dap/proxy.rs:437-731 | over every run both directions are byte-transparent: all client frames but launches and disconnects that met a running pipeline, all child frames but internal responses, in order |
| ProxyResponses.BooksBalance | crates/xcode-dap/src/dap/proxy.rs:437-731 | the accounting of requests and responses at every loop head, for a client with distinct low numbers and a child that answers once |
| ProxyResponses.ResponseDiscipline | crates/xcode-dap/src/dap/proxy.rs:371-731 | no response reaches the client under an internal number; none is answered twice, save exactly a disconnect answered by the child before the deadline |
| ProxyResponses.AnsweredTwice | crates/xcode-dap/src/dap/proxy.rs:371-381 | a run in which child and deadline both answer a disconnect |
| ProxyDisconnects.DisconnectAnswers | crates/xcode-dap/src/dap/proxy.rs:371-627 | how often each disconnect of a run is answered, exactly |
| ProxyResponses.LaunchAnsweredOnce | crates/xcode-dap/src/dap/proxy.rs:513-731 | every launch is answered at most once |
| ProxyResponses.CancelledLaunchUnanswered | crates/xcode-dap/src/dap/proxy.rs:594-627 | a cancelled launch stays unanswered while its disconnect is answered once |
| ProxyResponses.EndingsOnce | crates/xcode-dap/src/dap/proxy.rs:371-789 | the proxy builds at most one disconnect success and one terminated event, and each ends the loop |
| ProxyResponses.OwnSeqsConsecutive | crates/xcode-dap/src/dap/proxy.rs:816-820 | the proxy's own request numbers are consecutive from the base |
| ProxyFate.SessionIsDelivered | crates/xcode-dap/src/dap/proxy.rs:594-662 | at a loop head the session holds exactly the app the pipeline delivered |
| ProxyFate.AppFate | crates/xcode-dap/src/dap/proxy.rs:426-433 | exactly which delivered apps are stopped by the end of the run |
| ProxyHistory.AppFateByFrames | crates/xcode-dap/src/dap/proxy.rs:426-433 | the same from the frames: by the first `exited` or `terminated`, the answer to the attach request, the claim and `terminateOnStop` |
| ProxyFate.AppDropped | crates/xcode-dap/src/dap/proxy.rs:649-661 | a run after which the launched app is left running |
| ProxyFate.DrainedFate | crates/xcode-dap/src/dap/proxy.rs:857-869 | an app delivered during teardown is stopped unless the debuggee had exited |
| ProxyFate.LinesChangeNothing | crates/xcode-dap/src/dap/proxy.rs:870-878 | the last output lines have no part in what the teardown does |
| ProxyFate.TerminateBeforeRelease | crates/xcode-dap/src/dap/proxy.rs:879-918 | the pidfile is given up at most once and after every request to end the app |
| ProxyHistory.EffectsAreHistory | crates/xcode-dap/src/dap/proxy.rs:845-918 | everything done over a run and its teardown, in order, from the history |
| ProxyHistory.Session | crates/xcode-dap/src/dap/proxy.rs:279-918 | one proxy from its first frame to its end: exit code, traffic, last lines and effects are those of the history |
| Pidfile.SimulatorPidfile.SignalOld | crates/xcode-dap/src/util/pidfile.rs:53-64 | the signal goes to the live `xcode-dap` that the file names if it is another, else to nobody; the file is left alone |
| Pidfile.SimulatorPidfile.Claim | crates/xcode-dap/src/util/pidfile.rs:66-70 | signal, then write our line; a successful claim reads back as ours, a failed write leaves what it leaves |
| Pidfile.SimulatorPidfile.RemoveAt | crates/xcode-dap/src/util/pidfile.rs:101-107 | the file goes exactly when it names us and the removal succeeds |
| Pidfile.LineRead | crates/xcode-dap/src/dap/proxy.rs:828-838 | a written line is taken as its own by its writer alone, and removed by its writer alone |
| Pidfile.LineVictim | crates/xcode-dap/src/util/pidfile.rs:53-64 | the line of another proxy makes it the victim exactly when it runs as `xcode-dap` |
| Pidfile.VictimNamed | crates/xcode-dap/src/util/pidfile.rs:53-64 | no process of another name is ever the victim, whatever the file says |
| Pidfile.PidSpelledOut | crates/xcode-dap/src/util/pidfile.rs:110-116 | which texts read as which pid |
| Pidfile.RemovalSpelledOut | crates/xcode-dap/src/util/pidfile.rs:101-116 | which files are removed and which are still ours, for every pid |
| PidfileOwnership.InvariantHolds | crates/xcode-dap/src/util/pidfile.rs:33-107 | in every interleaving, failed writes included, what the last writer left is in the file until a proxy it names gives it up |
| PidfileOwnership.SupersededIff | crates/xcode-dap/src/dap/proxy.rs:828-838 | a proxy that claimed reads itself superseded exactly when the last write since, complete or failed, does not name it |
| PidfileOwnership.SupersededByClaim | crates/xcode-dap/src/dap/proxy.rs:822-838 | with no failed write: exactly when another has claimed since |
| PidfileOwnership.OwnerKeepsFile | crates/xcode-dap/src/util/pidfile.rs:101-107 | no release takes the last claimer's file away but its own |
| PidfileOwnership.ClaimerSignalled | crates/xcode-dap/src/util/pidfile.rs:33-70 | in every run a claim or early signal signals the last claimer, unless it has gone, exactly when it runs as `xcode-dap` |
| PidfileOwnership.OnlyProxiesSignalled | crates/xcode-dap/src/util/pidfile.rs:53-64 | nothing but a live `xcode-dap` is ever signalled |
| PidfileOwnership.DecisionExact | crates/xcode-dap/src/dap/proxy.rs:426-433 | every teardown decision in every run, exactly |
| PidfileOwnership.TerminateAfterSuccessor | crates/xcode-dap/src/dap/proxy.rs:879-913 | exactly when a decision taken after a successor's claim ends the app: the last write failed and names the decider |
| PidfileOwnership.NoTerminateAfterSuccessor | crates/xcode-dap/src/dap/proxy.rs:879-913 | with no such write, none does |
| PidfileOwnership.HandedBackEnds | crates/xcode-dap/src/util/pidfile.rs:66-70 | runs in which one does |
| PidfileOwnership.HalfALine | crates/xcode-dap/src/util/pidfile.rs:66-70 | a line cut short that names another proxy |
| PidfileOwnership.ReleasedIsLast | crates/xcode-dap/src/dap/proxy.rs:879-918 | a proxy decides nothing after releasing |
| PidfileOwnership.EarlySignalHarmless | crates/xcode-dap/src/util/pidfile.rs:33-36 | leaving the early signals out of a run changes no file, claim, decision or release |
| ProxyFleet.MoveRefined | crates/xcode-dap/src/dap/proxy.rs:594-918 | what a whole proxy does to the files and the log by its own effects in one move is one move of the ownership protocol, allowed there, or none |
| ProxyFleet.FleetRefines | crates/xcode-dap/src/util/pidfile.rs:33-107 | so every run of whole proxies over shared pidfiles is a run of the ownership protocol |
| ProxyFleet.FleetRight | crates/xcode-dap/src/dap/proxy.rs:828-918 | in it each proxy is in a state of its own loop and teardown, and reads of its ownership what the log of claims says |
| ProxyFleet.FleetFate | crates/xcode-dap/src/dap/proxy.rs:845-918 | exactly which app is stopped by a proxy among others, by the frames it received and the claims and failed claims logged before it decided |
| ProxyFleet.SignalledOwnerDecides | crates/xcode-dap/src/util/pidfile.rs:22-36 | an owner ended by a signal decides by the frames it received unless it has lost the simulator |
| ProxyFleet.PredecessorSignalled | crates/xcode-dap/src/util/pidfile.rs:33-70 | a proxy that claims a simulator signals the whole proxy that holds it exactly when that one still runs |
| CompileStore.Store.Merge | crates/xcode-dap/src/engine/compile_store.rs:218-237 | of each name the last module parsed is stored, all others are kept, nameless ones are skipped, nothing parsed changes nothing; the indexes are right afterwards |
| CompileStore.MergedLastWins | crates/xcode-dap/src/engine/compile_store.rs:218-237 | each module holds its newest parse, every other module is kept |
| CompileStore.Store.MergeAll | crates/xcode-dap/src/engine/compile_store.rs:425-443 | all groups in order; the watermark moves exactly when it should and some group held a module |
| CompileStore.Store.ReadJson | crates/xcode-dap/src/engine/compile_store.rs:394-408 | a store file of another version or configuration reads as empty |
| CompileStore.StoreFile.MergeSave | crates/xcode-dap/src/engine/compile_store.rs:182-213 | one locked merge: what is handed back, what is on disk, its time, whether it changed, and when the first two agree |
| CompileStore.MergeInMemory | crates/xcode-dap/src/engine/compile_store.rs:157-176 | without a path the merge is made over an empty store and not kept |
| CompileStore.SkippedIff | crates/xcode-dap/src/engine/compile_store.rs:218-237 | leaving a merge out goes unnoticed exactly when its modules come again or were stored already |
| CompileStore.HandedBackIff | crates/xcode-dap/src/engine/compile_store.rs:182-213 | exactly when the store handed back is the one on disk |
| CompileStore.HandedBackFails | crates/xcode-dap/src/engine/compile_store.rs:182-213 | a merge where it is not |
| CompileStore.ModuleFileKeys | crates/xcode-dap/src/engine/compile_store.rs:548-573 | every path in an existing response file; an inline file exactly when there is no list, one is missing, or it is listed; nothing else |
| CompileStore.IndexFiles | crates/xcode-dap/src/engine/compile_store.rs:353-359 | each such file is indexed under the greatest module that owns it, and nothing else is |
| CompileStore.FileIndexUnique | crates/xcode-dap/src/engine/compile_store.rs:353-359 | which determines the index |
| CompileStore.DictionaryOrder | crates/xcode-dap/src/engine/compile_store.rs:353-359 | greatest in dictionary order, character by character |
| CompileStore.SwiftNames | crates/xcode-dap/src/engine/compile_store.rs:515-520 | which paths are Swift files |
| CompileStore.IndexDirs | crates/xcode-dap/src/engine/compile_store.rs:360-368 | exactly the parents of indexed Swift files, in whatever order the map yields them |
| CompileStore.Store.RebuildIndexes | crates/xcode-dap/src/engine/compile_store.rs:353-371 | both indexes say what modules and disk say |
| CompileStore.NewFileModule | crates/xcode-dap/src/engine/compile_store.rs:330-349 | the module of the nearest indexed directory up to and including the first proper ancestor that is a project root; the starting directory is not tested |
| CompileStore.IndexedDirLives | crates/xcode-dap/src/engine/compile_store.rs:330-371 | that module exists and owns a Swift file right there |
| CompileStore.Store.OptionsForFile | crates/xcode-dap/src/engine/compile_store.rs:245-265 | a file some module owns, by a response file or inline, is served as its own; whose arguments are served, by the indexes of the last rebuild on the disk as it is now; a lookup never dangles however the two differ |
| StoreWriters.NoLostUpdate | crates/xcode-dap/src/engine/compile_store.rs:182-213 | over every interleaving the file is the fold of all commits in lock order, and every reader saw an intermediate fold |
| StoreWriters.FoldContents | crates/xcode-dap/src/engine/compile_store.rs:425-443 | the fold's modules and its watermark |
| StoreWriters.FinalStore | crates/xcode-dap/src/engine/compile_store.rs:182-238 | each module holds its newest parse in lock order, whoever wrote it; the watermark is that of the last writer that advanced it |
| Ingest.BuildServer.StartIngest | crates/xcode-dap/src/bsp/server.rs:252-258 | one ingest loop, however often the notification arrives |
| Ingest.BuildServer.OnInitialize | crates/xcode-dap/src/bsp/server.rs:93-144 | configuration, store and watermark are replaced together |
| Ingest.BuildServer.Boot | crates/xcode-dap/src/bsp/ingest.rs:42-75 | an empty store replays every log, a warm one waits for the poll |
| Ingest.BuildServer.PollOnce | crates/xcode-dap/src/bsp/ingest.rs:79-124 | reload configuration, reload store, then catch up on every log after the watermark |
| Ingest.BuildServer.IngestParsed | crates/xcode-dap/src/bsp/ingest.rs:137-177 | merge and save, then adopt only for the live configuration |
| Ingest.BuildServer.ReloadStoreIfChanged | crates/xcode-dap/src/bsp/ingest.rs:197-227 | a store whose file time moved is taken over with its watermark |
| Ingest.BuildServer.ReloadConfigIfChanged | crates/xcode-dap/src/bsp/ingest.rs:232-272 | a real switch swaps the whole store |
| IngestPolls.PollSettles | crates/xcode-dap/src/bsp/ingest.rs:79-124 | a second poll with nothing changed does nothing |
| IngestPolls.BootIsSeen | crates/xcode-dap/src/bsp/ingest.rs:42-75 | after a boot, warm or cold, the poll does not take the store for another process's |
| IngestPolls.InitializeServes | crates/xcode-dap/src/bsp/server.rs:93-144 | an initialized session serves the store on disk of the configured pair, or nothing |
| IngestPolls.SwitchServes | crates/xcode-dap/src/bsp/ingest.rs:232-272 | a switch does too, and a rewrite without one changes nothing else |
| IngestReplay.PendingFrom | crates/xcode-dap/src/bsp/ingest.rs:183-191 | the pending logs are those after the watermark |
| IngestPolls.PendingSpelledOut | crates/xcode-dap/src/bsp/ingest.rs:183-191 | the logs behind the one of that name; without a watermark all of them |
| IngestPolls.WatermarkGone | crates/xcode-dap/src/bsp/ingest.rs:183-191 | with a watermark that has left the manifest just the newest is ingested and becomes the watermark |
| IngestReplay.IngestInvariant | crates/xcode-dap/src/bsp/ingest.rs:42-191 | under every schedule each store is the replay up to its persisted watermark, and every log between the two watermarks parsed to nothing |
| IngestReplay.IncrementalIsColdReplay | crates/xcode-dap/src/bsp/ingest.rs:42-191 | after a poll, the session's store is one cold replay of the whole manifest |
| IngestReplay.NextPoll | crates/xcode-dap/src/bsp/ingest.rs:79-177 | after a failed save the same session looks only at what was built since, if anything |
| IngestReplay.FailedSaveIff | crates/xcode-dap/src/bsp/ingest.rs:79-177 | exactly when the next poll of that session, with new builds or none, still leaves the cold replay on disk |
| IngestReplay.RestartHeals | crates/xcode-dap/src/bsp/ingest.rs:42-191 | a new process and its poll leave the cold replay on disk exactly when it serves this configuration or the logs were covered; serving another leaves the store untouched |
| IngestReplay.TouchHeals | crates/xcode-dap/src/bsp/ingest.rs:197-227 | a poll that finds the store file's time changed leaves the cold replay on disk and in the session |
| IngestReplay.FailedSaveLoses | crates/xcode-dap/src/bsp/ingest.rs:137-177 | a run that loses a module |
| SessionSteps.SessionConsistent | crates/xcode-dap/src/bsp/ingest.rs:137-272 | in every interleaving a store the session holds was made for the session's own configuration |
| SessionSteps.StaleNeverAdopted | crates/xcode-dap/src/bsp/ingest.rs:157-176 | a result for a configuration swapped away changes nothing; one in time becomes the store |
| Slf.ScanStrings | crates/xcode-dap/src/engine/xcactivitylog.rs:107-145 | the scan stays in bounds, ends, and computes the specified strings |
| Slf.RoundTrip | crates/xcode-dap/src/engine/xcactivitylog.rs:537-577 | tokenizing an encoding gives exactly the string payloads, whatever bytes they hold |
| Slf.TruncatedPrefix | crates/xcode-dap/src/engine/xcactivitylog.rs:107-145 | any truncation of any bytes yields a prefix |
| Slf.TruncatedExact | crates/xcode-dap/src/engine/xcactivitylog.rs:107-145 | a truncated encoding yields exactly the strings of its whole tokens |
| Slf.OtherMagic | crates/xcode-dap/src/engine/xcactivitylog.rs:107-145 | without `SLF0` at the head nothing is read |
| Slf.BadLengthStops | crates/xcode-dap/src/engine/xcactivitylog.rs:107-145 | a length that is no numeral ends the reading |
| ShellWords.ShellSplit | crates/xcode-dap/src/engine/xcactivitylog.rs:374-439 | the nested loops compute the specified words |
| ShellWords.SplitDistributes | crates/xcode-dap/src/engine/xcactivitylog.rs:374-439 | splitting distributes over whitespace after balanced text, whatever follows |
| ShellWords.PiecesDistribute | crates/xcode-dap/src/engine/xcactivitylog.rs:374-439 | a line of balanced pieces with separators, and any tail, splits into the words of its pieces and those of the tail |
| ShellWords.RoundTrip | crates/xcode-dap/src/engine/xcactivitylog.rs:365-439 | words written with escaped spaces, backslash pairs and quotes split back to the same words, with or without blanks at either end |
| ShellWords.BrokenLine | crates/xcode-dap/src/engine/xcactivitylog.rs:374-439 | a line that breaks off in a quote or behind a backslash gives its last word as far as it got |
| Sections.CollectModules | crates/xcode-dap/src/engine/xcactivitylog.rs:163-171 | one module a name, in order of name, each from the last section of that name |
| Sections.CollectedMerges | crates/xcode-dap/src/engine/compile_store.rs:218-237 | merging what was collected is merging every section in turn |
| Calendar.ValidDate | crates/xcode-dap/src/util/logging.rs:278-293 | every day number gives a date of the proleptic Gregorian calendar |
| Calendar.NoOverflow | crates/xcode-dap/src/util/logging.rs:278-293 | on 64-bit integers only the first addition can overflow, on exactly the last 719468 day numbers |
| Calendar.DaysOfCivil | crates/xcode-dap/src/util/logging.rs:278-293 | counting days year by year and month by month up to it gives the day number back |
| Calendar.CivilOfDays | crates/xcode-dap/src/util/logging.rs:278-293 | and every date comes back from its day number |
| Calendar.Successor | crates/xcode-dap/src/util/logging.rs:278-293 | the next day number is the next date |
| Calendar.TimestampReads | crates/xcode-dap/src/util/logging.rs:265-274 | a timestamp reads back to the second it was made from |
| Tailer.FileTailer.DrainNew | crates/xcode-dap/src/engine/consoles.rs:231-267 | offset, partial line and emitted lines after one poll, truncation and failed reads included |
| Tailer.FileTailer.TailFile | crates/xcode-dap/src/engine/consoles.rs:205-226 | polls in turn, a last drain, then the partial line |
| Tailer.SplitReassembles | crates/xcode-dap/src/engine/consoles.rs:260-266 | lines and rest reassemble the text |
| Tailer.LinesSpelledOut | crates/xcode-dap/src/engine/consoles.rs:231-267 | the lines of a text are what stands between its newlines, carriage returns at the end of each trimmed, with the rest if there is one |
| Tailer.ScheduleIndependent | crates/xcode-dap/src/engine/consoles.rs:231-267 | what was emitted depends only on how far a growing file was read |
| Tailer.FinalDrainExact | crates/xcode-dap/src/engine/consoles.rs:205-267 | after the final drain the lines are exactly the newline split of the content |
| Tailer.LivesTracked | crates/xcode-dap/src/engine/consoles.rs:241-246 | over any number of seen truncations, the guarantee restarts life by life |
| Tailer.FreshStartIff | crates/xcode-dap/src/engine/consoles.rs:241-266 | exactly when a poll that meets new content goes on as a fresh start would |
| Tailer.UnseenTruncation | crates/xcode-dap/src/engine/consoles.rs:241-246 | two contents and two polls after which a line of neither has been emitted |

## Left out

- Handlers, lock sections and pidfile accesses are single steps; tokio tasks, channels, timers and the writer tasks are not modelled beyond the order of what is sent.
- Proxy.Proxy.TearDown: closing lldb-dap's input, waiting for it and flushing the writer are not modelled.
- Proxy.Proxy.OnLaunch: does not model the raising of the log level.
- Time: deadlines and grace periods are events; file times are numbers that move on every write, so an update within one tick of the clock is not modelled.
- `remove_at` reads and removes in one step; a claim between the two could be deleted in the source.
- PidfileOwnership.EarlySignalHarmless: says nothing of what a signalled proxy does; ProxyFleet.SignalledOwnerDecides does.
- Locks are obtained: the fail-open path of `store_lock` voids the no-lost-update result.
- IngestReplay.IncrementalIsColdReplay: assumes that saves succeed, that manifests only grow and that no other process writes; FailedSaveIff, RestartHeals and TouchHeals say what a failed save does.
- PidfileOwnership.DecisionExact: proxies have distinct pids; an app launched by a proxy that never claimed can be terminated although the simulator has a new owner, and the theorem says so.
- ProxyResponses.ResponseDiscipline: holds for clients that number their requests distinctly below the base and children that answer each request once, the protocol's own rules.
- The 2 s initialize guard, `log_frame` and the verbose log level.
- Full JSON parsing: frames are datatypes with the inspected members and opaque bytes; whether a rewritten file parses is a parameter of `ConfigFile`.
- The JSONC modules work on characters rather than UTF-8 bytes; every byte the source tests is ASCII. Insertion points are character positions.
- Marker identifiers are letters, digits, `-` and `_`, as the repository's two are.
- Atomic writes and backups are single steps; name clashes and half-written backup files are not modelled.
- `serve_args`, the store file name and its hash, and lower-casing of keys: the disk is a parameter that maps a path to its key.
- `parent == current` in `new_file_module`: a parent of a component list is always shorter, so that branch cannot be taken.
- Lossy UTF-8 decoding and gzip: `Slf` and `Tailer` work on bytes, and trailing CRs are trimmed as bytes.
- `parse_section`, `split_lines`, manifest parsing and text-section grouping: easy members around what is proved.
- `didChange` pushes: an ingest that changes nothing may adopt an external write without one.
- Device choice, the build pipeline, `doctor`, the setup commands, the console command and the WASM extension.
