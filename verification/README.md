# OmniPanel: verified models

Dafny models of the parts of OmniPanel whose behaviour is subtle, with proofs of what they guarantee.
`dafny verify dfyconfig.toml` verifies the whole project.

- **Background task pool** (`TaskPool`, `TaskOutcome`, `TaskRecords`, `DroppedTasks`, `BackgroundWorkerPool`). Spawners,
  workers, progress callbacks, cancellers and detached persist jobs interleave at their atomic sections. `TaskPool` is the state
  machine; the class `WorkerPool` has the sections of the program, each one step of the machine, and its whole
  operations.
- **Snapshot publication** (`ObjectKeys`, `SnapshotPush`, `PublishProtocol`). How a snapshot is assembled,
  sealed and uploaded, and what a reader of the bucket sees while any number of pushes interleave or crash.
- **tmux control connections** (`TmuxProtocol`, `TmuxManager`). A cache of connections with a lock per key,
  marks for unsupported hosts, one retry, and a delayed reaper, as a state machine and as the object.
- **Agent sidecar** (`JsonValue`, `AgentProtocol`, `AgentEvents`, `AgentSession`, `AgentHost`). JSON-RPC 2.0 over lines:
  the sidecar's serve loop, the host's listening loop, and the two together.
- **SiYuan documents** (`SiyuanUnits`, `SiyuanConservation`, `Utf8`, `SiyuanDecoding`). The flattening of a
  syntax tree into text units and the books of its text; the base64, UTF-8 and entity decoders.
- **Workspace tree** (`WorkspaceTree`, `WorkspaceEngine`). Panes, tabs and splits under all operations.
- **Aliyun client** (`Octets`, `CanonicalQuery`, `AliyunListing`). The signed query, the choice of regions,
  and the capped paging loop.
- **Text scanners** (`Text`, `SectionParser`, `SecretMasking`). The section parser of chat messages and the
  masking of secrets.
- **Version list** (`VersionList`). The order of versions and the list of the download page.

Some properties that one might expect do not hold of the code. Each has a witness and the exact condition
under which it does hold:

- A persisted record can contradict its task (`TaskRecords.StaleRecord`): a record agrees throughout a run, in
  every order of the pending jobs, exactly when no cancel hands over a snapshot before the Running patch
  (`TaskRecords.TruthfulExactlyWhenNotEarly`).
- A cancelled task can stay Running until it is cancelled again (`DroppedTasks.StuckRunning`): once its worker is dropped, it is
  terminal exactly when no Running patch followed the last cancel patch (`DroppedTasks.DroppedIsTerminalExactly`).
- Two connections can live for one tmux key (`TmuxProtocol.LeakIsReachable`): deleting a connect lock can lead
  there exactly when some attach of the key is armed (`TmuxProtocol.UnlockLeaksExactlyWhenArmed`). Exclusion
  under the lock needs more, that no attach is in flight (`TmuxProtocol.UnlockIsSafeExactlyWhenIdle`).
- A document can lose text (`SiyuanConservation.HiddenIsLost`) and repeat text (`SiyuanConservation.PendingTwice`):
  prose keeps every text exactly when what hides and what is used again are the same
  (`SiyuanConservation.ConservedExactly`). With only one of the two causes at hand it is decided by
  `ConservedExactlyWhenSettled` and `ConservedExactlyWhenNothingHides`.
- Pushes into one directory can leave an overview that names a foreign file (`PublishProtocol.CollisionBreaksConsistency`):
  consistency holds exactly for separate directories (`PublishProtocol.ConsistentExactlyWhenSeparate`), and readers
  find the right bodies exactly if colliding runs agree (`PublishProtocol.ReadableExactlyWhenCompatible`).
- Base64 without padding decodes to its bytes exactly when their number is divisible by three
  (`SiyuanDecoding.UnpaddedExactlyWhenFull`).
- A drag can set a ratio that is no number: exactly when offset and extent are both zero
  (`WorkspaceEngine.NewEngineLosesARatio`, `WorkspaceEngine.RangeRun`).

## Model

| member | source | states |
|---|---|---|
| TaskPool.PermitsConserved | crates/omnipanel-bg/src/pool.rs:49-59 | In every run, aborts included, free permits plus workers holding one equal the worker count, which is at least 1; so at most that many task bodies execute at once |
| TaskPool.WorkerCountStays | crates/omnipanel-bg/src/pool.rs:49-59 | In every run the worker count is the requested one, or 1 if none was requested |
| TaskPool.AllWorkersCanWork | crates/omnipanel-bg/src/pool.rs:49-59 | The bound on concurrent work is reached: for every requested count of at least 1 some run has that many task bodies executing at once |
| TaskPool.HolderCanMove | crates/omnipanel-bg/src/pool.rs:228-271 | A worker that holds a permit always has a next step of its own, so no permit is stuck |
| TaskPool.TerminalExits | crates/omnipanel-bg/src/pool.rs:234-263 | In any reachable state Completed and Failed are absorbing, and the only way out of a terminal status is Cancelled to Running by the worker's one unguarded Running patch |
| TaskPool.FinishedForever | crates/omnipanel-bg/src/pool.rs:254-263 | Over any continuation of a run, a Completed or Failed task keeps status, finish time and error |
| TaskOutcome.FinalOutcome | crates/omnipanel-bg/src/pool.rs:242-302 | A worker past its final patch left the task Cancelled exactly when a cancel stored the published flag before the worker read it or patched the task between the Running and the final patch; otherwise Completed or Failed as the work ended |
| TaskOutcome.RunningOnce | crates/omnipanel-bg/src/pool.rs:228-240 | The Running patch of a task happens at most once in a run |
| TaskRecords.TerminalStays | crates/omnipanel-bg/src/pool.rs:254-302 | Without a further Running patch a terminal task keeps its verdict over any continuation |
| TaskRecords.SnapshotsAgree | crates/omnipanel-bg/src/pool.rs:110-121 | Two snapshots handed to persist jobs with no Running patch after the first are terminal and agree on status, finish time and error |
| TaskRecords.TruthfulExactlyWhenNotEarly | crates/omnipanel-bg/src/pool.rs:95-121 | A history record agrees with its task at every moment of a run, in every order in which the pending persist jobs can be written then, exactly when no snapshot was handed over before the Running patch |
| TaskRecords.EarlyPersistShows | crates/omnipanel-bg/src/pool.rs:234-238 | If one was, the Running patch leaves a moment at which the record disagrees, or disagrees after one more pending job |
| TaskRecords.StaleRecord | crates/omnipanel-bg/src/pool.rs:175-184 | A reachable run in which a cancel between task insert and flag insert is lost, the worker completes the task, and the history ends with the older Cancelled snapshot |
| TaskRecords.AnyJobCanBeLast | crates/omnipanel-bg/src/pool.rs:116-120 | Any pending terminal snapshot can be the one that the history table ends up with |
| TaskRecords.EveryOrderAgrees | crates/omnipanel-bg/src/pool.rs:95-121 | From a state whose record agrees, all orders of the pending persist jobs end in agreement with the task exactly when every pending snapshot of the task agrees with it (supporting) |
| DroppedTasks.TerminalExactly | crates/omnipanel-bg/src/pool.rs:234-302 | At every moment of every run a task is terminal exactly if its worker has applied the final patch, or some cancel has patched it with no Running patch after the last such cancel |
| DroppedTasks.DroppedIsTerminalExactly | crates/omnipanel-bg/src/pool.rs:234-302 | A task whose aborted worker was dropped before its final patch is terminal, until another cancel comes, exactly if some cancel has patched it with no Running patch after the last such cancel |
| DroppedTasks.DroppedStays | crates/omnipanel-bg/src/pool.rs:228-302 | A dropped worker never comes back, and without another cancel the status, finish time and error of its task never change |
| DroppedTasks.StuckRunning | crates/omnipanel-bg/src/pool.rs:234-289 | A reachable run: a whole cancel falls before the Running patch and the aborted worker is dropped after it, so the cancel is answered and recorded while the task stays Running |
| BackgroundWorkerPool.WorkerPool.constructor | crates/omnipanel-bg/src/pool.rs:49-59 | The worker count is the requested one, at least 1, the semaphore starts with as many permits, nothing is running or recorded, and this is the start of all runs |
| BackgroundWorkerPool.WorkerPool.PatchTask | crates/omnipanel-bg/src/pool.rs:123-135 | One entry is changed under the task lock and a copy returned; a missing task changes nothing |
| BackgroundWorkerPool.WorkerPool.Spawn | crates/omnipanel-bg/src/pool.rs:138-275 | From any reachable state: the new task is Pending with its total, index 0, start time now and no end or error, its flag published and clear, its worker queued, its handle stored, and no other entry changes |
| BackgroundWorkerPool.WorkerPool.RunQueued | crates/omnipanel-bg/src/pool.rs:228-271 | The body of a queued worker with any reports and outcome, from any reachable state: the task ends Cancelled exactly when its flag was set, else Completed or Failed as the work ended, even if a cancel had patched it before; it shows the last report, its final snapshot is handed over, and no permit, flag or handle is left behind |
| BackgroundWorkerPool.WorkerPool.Cancel | crates/omnipanel-bg/src/pool.rs:278-310 | From any reachable state: NotFound for an unknown task, else the task is terminal afterwards, Cancelled now if it was active and untouched if not; a published flag is set, the handle is taken and aborted, and with a sink the snapshot is handed over |
| BackgroundWorkerPool.WorkerPool.CancelQueued | crates/omnipanel-bg/src/pool.rs:283-302 | A cancelled task whose worker still waits is Cancelled, its worker never starts, and no permit is lost |
| BackgroundWorkerPool.WorkerPool.PersistAll | crates/omnipanel-bg/src/pool.rs:95-108 | All pending jobs are written in order and none is left; nothing but the history changes |
| BackgroundWorkerPool.LastWins | crates/omnipanel-bg/src/pool.rs:95-108 | Of the terminal snapshots of a task, the one that is written last is the record |
| BackgroundWorkerPool.WorkerPool.Submit | crates/omnipanel-bg/src/pool.rs:138-275 | The undisturbed life of a task from spawn to record: task and history record say what the work said, other tasks are untouched, and the permits are as before |
| BackgroundWorkerPool.WorkerPool.Summary | crates/omnipanel-bg/src/pool.rs:61-77 | active is the number of Pending and Running tasks, and idle plus the smaller of active and worker count is the worker count |
| ObjectKeys.RFind | crates/omnipanel-assistant/src/push.rs:219-221 | The last occurrence of a marker, if there is one |
| ObjectKeys.RSplitOnce | crates/omnipanel-assistant/src/push.rs:286-288 | Splits at the last occurrence and loses nothing |
| ObjectKeys.ModuleIdsDistinct | crates/omnipanel-assistant/src/types.rs:8-19 | The ten module ids are distinct (supporting) |
| ObjectKeys.KeysInjective | crates/omnipanel-assistant/src/types.rs:204-212 | Object keys collide only for the same file of the same directory |
| ObjectKeys.OverrideDir | crates/omnipanel-assistant/src/push.rs:228-242 | An override wins over every granted prefix and is the directory, slashes around it aside |
| ObjectKeys.OverrideFile | crates/omnipanel-assistant/src/push.rs:228-242 | An override that names a .json file in a directory stands for that directory |
| ObjectKeys.GeneratedDir | crates/omnipanel-assistant/src/push.rs:228-256 | Without an override the push directory is /snapshots/ and the run's own leaf under the granted prefix, slashes around it aside, or under the user's home if none is granted; trimming does not change it, and its latest files go to /latest beside it |
| ObjectKeys.GeneratedDirsAreSeparate | crates/omnipanel-assistant/src/push.rs:277-293 | Generated directories differ for different leaves and none of them is a latest/ prefix |
| SnapshotPush.BuildSnapshotBundle | crates/omnipanel-assistant/src/types.rs:198-269 | The files are the ten module files in order, each with the items and error of its own section, and the overview last, whose entry i counts the items of section i in 32 bits, names file i, repeats its error and is not marked encrypted |
| SnapshotPush.BundleReadsBack | crates/omnipanel-assistant/src/types.rs:198-269 | A reader that follows the overview to the module files gets back the origin and every section exactly |
| SnapshotPush.ApplyModuleEncryption | crates/omnipanel-assistant/src/push.rs:183-216 | The two loops compute the sealing and marking that the lemmas below speak about, error cases included |
| SnapshotPush.SealFiles | crates/omnipanel-assistant/src/push.rs:187-196 | The first loop seals every module file but the assistant's and collects the sealed ids, or stops at the first failure |
| SnapshotPush.MarkEntries | crates/omnipanel-assistant/src/push.rs:204-208 | The second loop marks the entries of the sealed ids |
| SnapshotPush.ExtractFromModuleKey | crates/omnipanel-assistant/src/push.rs:219-224 | The id of a module is read back from its key |
| SnapshotPush.ExtractFromOverviewKey | crates/omnipanel-assistant/src/push.rs:189-196 | The overview is taken for a module file exactly when its key contains the module marker |
| SnapshotPush.EncryptionMarksSealedModules | crates/omnipanel-assistant/src/push.rs:183-216 | With an overview key free of the marker, every module file but the assistant's is sealed and an overview entry is marked encrypted exactly when its file was sealed; it fails exactly when some file cannot be sealed |
| SnapshotPush.SealedReadsBack | crates/omnipanel-assistant/src/push.rs:183-216 | So does a reader of the sealed bundle that opens what is marked encrypted, if opening undoes sealing |
| SnapshotPush.MarkedDirectorySealsOverview | crates/omnipanel-assistant/src/push.rs:187-213 | With a directory that contains the marker the overview is sealed too, and the push goes on exactly if every file is sealed and the sealed overview still reads as an overview |
| PublishProtocol.LatestIsElsewhere | crates/omnipanel-assistant/src/push.rs:286-293 | A snapshot directory is never its own latest/ prefix (supporting) |
| PublishProtocol.PlannedRunsAreWellFormed | crates/omnipanel-assistant/src/push.rs:113-158 | The planned uploads of an assembled, possibly sealed, bundle carry the keys of their directory with the overview last, then the same bodies under latest/, and the overview names the versioned modules |
| PublishProtocol.PublishedSnapshotsAreComplete | crates/omnipanel-assistant/src/push.rs:136-158 | At every moment of every interleaving of any number of runs with separate directories, every overview in the store, versioned or latest, names only module objects already present with the bodies of its own run |
| PublishProtocol.NotifiedRunsAreUploaded | crates/omnipanel-assistant/src/push.rs:160-170 | A run is notified only after all its uploads, and then its versioned overview is in place |
| PublishProtocol.ConsistentExactlyWhenSeparate | crates/omnipanel-assistant/src/push.rs:131-158 | Consistency under every interleaving, where every module object named by an overview was written by the run of that overview, holds exactly when no run shares another run's directory or uploads its latest/ copy into it; an overwrite with the same body counts as a failure here |
| PublishProtocol.ReadableExactlyWhenCompatible | crates/omnipanel-assistant/src/push.rs:131-158 | Whoever wrote them, the module objects named by any overview have the bodies of its run under every interleaving exactly when runs that share a directory, or upload their latest/ copy into one, have the same module files |
| PublishProtocol.GeneratedRunsAreComplete | crates/omnipanel-assistant/src/push.rs:228-293 | Pushes without an override into directories with leaves of their own are separate, and so complete at every moment |
| PublishProtocol.CollisionBreaksConsistency | crates/omnipanel-assistant/src/push.rs:228-242 | Two runs pushed into one directory, or one into the latest/ prefix of the other, can leave an overview that names a foreign module file, and one with another body if some module differs |
| PublishProtocol.PutVersioned | crates/omnipanel-assistant/src/push.rs:136-142 | The first loop uploads the files in order up to the first failure |
| PublishProtocol.PutLatest | crates/omnipanel-assistant/src/push.rs:145-158 | The second loop uploads the same bodies under the latest/ prefix up to the first failure |
| PublishProtocol.PushSnapshot | crates/omnipanel-assistant/src/push.rs:131-170 | Whatever upload fails, what arrived is a prefix of the planned uploads, and the notification with the versioned keys follows only a complete push |
| TmuxProtocol.OneConnectionPerKey | src-tauri/src/ssh_tmux.rs:150-398 | In every run whose reapers delete a connect lock only while no attach of that key is armed, that is, may still open or cache a connection, each live connection is cached under its key or about to be, and no key has two live connections |
| TmuxProtocol.OneAttachInside | src-tauri/src/ssh_tmux.rs:303-310 | In every run whose reapers delete a connect lock only while no attach of that key is in flight, at most one attach per key is inside its lock |
| TmuxProtocol.AttachedMeansShared | src-tauri/src/ssh_tmux.rs:230-301 | The connection of an attach that answered Attached has its key, and is the cached one as long as it lives |
| TmuxProtocol.AttachedMeansBound | src-tauri/src/ssh_tmux.rs:285-300 | From the removal of its direct record on, and until someone else forgets, rebinds or records the session, an attach that answered Attached has its session bound to its connection, and there is no direct record |
| TmuxProtocol.DiedForGood | src-tauri/src/ssh_tmux.rs:313-323 | A connection that dies is dead for good: no later look into the cache finds it, whatever comes in between |
| TmuxProtocol.UnlockIsSafeExactlyWhenIdle | src-tauri/src/ssh_tmux.rs:303-310 | Deleting a connect lock keeps attaches of its key exclusive for ever exactly when none is in flight |
| TmuxProtocol.UnlockWhileBusy | src-tauri/src/ssh_tmux.rs:579-586 | Deleting the lock while an attach is in flight can be followed by two attaches of one key inside at once |
| TmuxProtocol.UnlockLeaksExactlyWhenArmed | src-tauri/src/ssh_tmux.rs:579-586 | After a connect lock is deleted the key can come to two live connections exactly when some attach of it was armed at the deletion: waiting, entered, resolving, connecting, opened, dropping, or holding a host with its retry still open. An attach past that does no harm |
| TmuxProtocol.ArmedLeaks | src-tauri/src/ssh_tmux.rs:579-586 | From each of these phases a continuation with two live connections of the key is constructed |
| TmuxProtocol.LeakIsReachable | src-tauri/src/ssh_tmux.rs:568-588 | Such a leak is reachable from the initial state by attach, reap, and attach |
| TmuxProtocol.MarkBlocksNewAttaches | src-tauri/src/ssh_tmux.rs:326-346 | Until a mark is five minutes old or all marks are invalidated, every attach of an unsupported key that begins is answered Unsupported, and beginning is its only step: it fetches no lock and opens no connection |
| TmuxProtocol.MarkAnswers | src-tauri/src/ssh_tmux.rs:326-337 | A beginning attach is answered from a mark exactly if the mark is younger than 300 seconds; an older one is removed (supporting) |
| TmuxProtocol.RefusalBlocksNewAttaches | src-tauri/src/ssh_tmux.rs:370-383 | A refusal is remembered: after the remote side refuses control mode to an attach, in every continuation under 300 seconds without invalidation each attach of that key that begins is answered Unsupported and takes no other step |
| TmuxProtocol.InvStep | src-tauri/src/ssh_tmux.rs:150-398 | Every step of attaches, closes, reapers and dying connections keeps the lock and connection invariants, in both readings of when a lock is in use |
| TmuxManager.SharedManager.UnsupportedReason | src-tauri/src/ssh_tmux.rs:326-337 | A mark younger than 300 seconds gives its reason, an older one is removed |
| TmuxManager.SharedManager.ConnectLock | src-tauri/src/ssh_tmux.rs:303-310 | The lock of a key is the one in the map, or a new one put there |
| TmuxManager.SharedManager.LiveConnection | src-tauri/src/ssh_tmux.rs:313-323 | The cached connection if it lives; a dead entry is removed, nothing else changes |
| TmuxManager.SharedManager.RemoveHost | src-tauri/src/ssh_tmux.rs:222-228 | The cached host is removed and disconnected; no other connection changes |
| TmuxManager.SharedManager.SpawnHost | src-tauri/src/ssh_tmux.rs:352-398 | A run of the state machine that ends with a cached new connection, a refusal that is recorded with its reason and the current time, or a failure; marks of other keys stay |
| TmuxManager.SharedManager.AttachWithResolvedHost | src-tauri/src/ssh_tmux.rs:230-301 | One attempt: a run of the state machine whose result is decided by the cached host and the remote; a bound session has no direct record |
| TmuxManager.SharedManager.Retry | src-tauri/src/ssh_tmux.rs:201-216 | After a failure on a cached host that host is dead and dropped, and a fresh connection decides |
| TmuxManager.SharedManager.Attach | src-tauri/src/ssh_tmux.rs:150-220 | An undisturbed attach is a run of the state machine with the expected answer: Unsupported for a mark younger than 300 seconds with nothing opened, one retry after a failure on a cached host; a refusal leaves a mark with its reason and the current time and no other mark changes; an attached session is bound to the live cached connection of its key and has no direct record |
| TmuxManager.AnswerMeans | src-tauri/src/ssh_tmux.rs:150-220 | The expected answer: attached through the cached host if its window is there, else through a fresh connection; unsupported exactly for a mark or a refusal (supporting) |
| TmuxManager.SharedManager.Close | src-tauri/src/ssh_tmux.rs:541-552 | A bound session is forgotten and a reaper for the key of its host put to sleep, nothing else changes; an unbound one changes nothing |
| TmuxManager.SharedManager.IdleReap | src-tauri/src/ssh_tmux.rs:568-588 | A whole undisturbed reaper: a host that is missing or in use is left alone with everything else; an idle one is gone and dead afterwards and its key has no lock; no other key is touched |
| TmuxManager.ReapKeepsInv | src-tauri/src/ssh_tmux.rs:568-588 | A whole reaper that meets no armed attach of its key keeps the invariant under which no key has two live connections |
| AgentProtocol.RequestRoundTrip | crates/omnipanel-agent-proto/src/lib.rs:58-65 | Parsing gives a request back exactly when its method is not chat_event (supporting) |
| AgentProtocol.ResultRoundTrip | crates/omnipanel-agent-proto/src/lib.rs:67-73 | Parsing gives a result back, null included (supporting) |
| AgentProtocol.ErrorRoundTrip | crates/omnipanel-agent-proto/src/lib.rs:75-81 | Parsing gives id and message of an error back (supporting) |
| AgentProtocol.ChatEventRoundTrip | crates/omnipanel-agent-proto/src/lib.rs:83-89 | Parsing gives id and event of a notification back (supporting) |
| AgentProtocol.RebuiltParsesBack | crates/omnipanel-agent-proto/src/lib.rs:91-125 | Whatever message is accepted, building it anew and parsing again changes nothing (supporting) |
| AgentProtocol.EnvelopesAreToldApart | crates/omnipanel-agent-proto/src/lib.rs:91-125 | An error other than null makes an envelope a failure, else a result, null included, makes it a response, else a method name makes it a request, and anything else is rejected |
| AgentProtocol.FailureText | crates/omnipanel-agent-proto/src/lib.rs:131-145 | The text of a failure is the error itself if it is a string, else its message, else all of it rendered |
| AgentProtocol.EnvelopesConform | crates/omnipanel-agent-proto/src/lib.rs:58-89 | The four envelopes have the members of JSON-RPC 2.0, sections 4 and 5 (supporting) |
| AgentProtocol.ReadJsonLine | crates/omnipanel-agent-proto/src/lib.rs:33-49 | The first line that is not blank is consumed and returned, parsed or as invalid; otherwise end of input or an I/O error |
| AgentProtocol.WriteJsonLine | crates/omnipanel-agent-proto/src/lib.rs:51-56 | One line is appended, or nothing if the writer fails |
| AgentEvents.EventRoundTrip | crates/omnipanel-ai/src/ir.rs:8-44 | Every stream event is read back from its tagged JSON object |
| AgentEvents.StopNames | crates/omnipanel-ai/src/ir.rs:46-55 | The names of the stop reasons on the wire (supporting) |
| AgentSession.Pump | crates/omnipanel-agent-session/src/lib.rs:123-146 | The stream loop writes one notification per event of what the stream tells, or a prefix if the writer fails |
| AgentSession.StreamTold | crates/omnipanel-agent-session/src/lib.rs:123-146 | What a stream tells: its values unchanged and in order, up to the first failure or error event, which is told as an error and is the last |
| AgentSession.HandleChat | crates/omnipanel-agent-session/src/lib.rs:81-148 | A chat writes one refusal with its code, or its events and then the final result |
| AgentSession.Dispatch | crates/omnipanel-agent-session/src/lib.rs:55-79 | Each method name gets its answer; an unknown one an error |
| AgentSession.ServeIo | crates/omnipanel-agent-session/src/lib.rs:23-53 | For every finite input and behaviour of the source, what reaches the writer is the answers to the lines that are not blank, in order, cut only where the writer fails; the loop ends well exactly when all was written and the input ended well |
| AgentSession.AnswerIsBlock | crates/omnipanel-agent-session/src/lib.rs:34-79 | Every line that is not blank is answered by one well-formed block: events and then one response or failure, all with the id of the request (0 for a bad line), events only for chat, an error event last among them |
| AgentSession.AnswerCodes | crates/omnipanel-agent-session/src/lib.rs:34-148 | Which error code of JSON-RPC 2.0 a line is answered with: -32700 for a malformed one, -32600 for no request, -32602 for a chat without a readable request, -32000 for every failure of the source and an unknown method, and none otherwise |
| AgentSession.OutputSplitsIntoBlocks | crates/omnipanel-agent-session/src/lib.rs:34-148 | The output for any input and behaviour, cut after each message that is not an event, falls into exactly one well-formed block per line that is not blank, in order |
| AgentHost.ReadUntil | crates/omnipanel-ai/src/providers/agent_source/sidecar.rs:130-162 | The listening loop delivers the events of its own call, skips those of others, and ends with the answer or with the reason why the stream is unusable |
| AgentHost.ForeignMessages | crates/omnipanel-ai/src/providers/agent_source/sidecar.rs:130-162 | Events of other chats are passed over, and any other message that is not for this call is a breakdown (supporting) |
| AgentHost.SidecarSession.Call | crates/omnipanel-ai/src/providers/agent_source/sidecar.rs:96-128 | Every call sends a request with an id of its own and listens for its answer; nothing is read if it cannot be sent |
| AgentHost.RequestHeard | crates/omnipanel-ai/src/providers/agent_source/sidecar.rs:130-162 | The block that answers a request tells the host exactly what the stream tells and the outcome, spelled out per method, and leaves the lines after it |
| AgentHost.HostAndSidecarStayInStep | crates/omnipanel-ai/src/providers/agent_source/sidecar.rs:96-162 | For any list of calls and any behaviour of the source, host and sidecar never fall out of step: a chat learns the values of its stream unchanged and in order up to the first fault, every other call its own result or message, and the output is used up; method chat_event is excepted |
| SiyuanUnits.InlineInto | plugins-market/knowledge-siyuan/logic.js:106-117 | The buffer grows by the own text of the node and of its descendants through nodes without id |
| SiyuanUnits.SubtreeInline | plugins-market/knowledge-siyuan/logic.js:141-148 | True exactly when no descendant has an id |
| SiyuanUnits.CollectUnits | plugins-market/knowledge-siyuan/logic.js:224-293 | All branches push exactly the rendered groups of the block, and leave pending as the groups say |
| SiyuanUnits.GatherUnits | plugins-market/knowledge-siyuan/logic.js:277-292 | The loop over structural children: inline blocks join the unit at hand, others end it |
| SiyuanUnits.DocumentUnits | plugins-market/knowledge-siyuan/logic.js:312-324 | The units of a document are its rendered groups |
| SiyuanUnits.DocMarkdown | plugins-market/knowledge-siyuan/logic.js:312-326 | The units separated by blank lines |
| SiyuanConservation.RenderKeepsInk | plugins-market/knowledge-siyuan/logic.js:289-292 | Rendering makes no empty unit and loses no character but white space, in order |
| SiyuanConservation.UnitsHoldTheGroups | plugins-market/knowledge-siyuan/logic.js:312-326 | For every document, headings, code and tables included, no unit is empty and the units hold the text of their groups in order, up to white space |
| SiyuanConservation.Balance | plugins-market/knowledge-siyuan/logic.js:274-326 | For every prose document and whatever is counted per piece: the pieces in the units plus the hidden ones weigh as much as those of the document, the markers, and the pending text that is used again |
| SiyuanConservation.PiecesBalance | plugins-market/knowledge-siyuan/logic.js:274-326 | Piece by piece: each text is in the units and in what is hidden, whole, exactly as often as in the document, the markers and the reused pending text |
| SiyuanConservation.UnitsBalance | plugins-market/knowledge-siyuan/logic.js:312-326 | The same for every character of the rendered units that is not white space |
| SiyuanConservation.PieceInUnit | plugins-market/knowledge-siyuan/logic.js:284-292 | A group with a piece that is more than white space is rendered to one unit in its place, and the text of the piece stands in that unit whole, save for white space at its edges |
| SiyuanConservation.ConservedExactly | plugins-market/knowledge-siyuan/logic.js:274-326 | For every prose document: every piece that is more than white space is in the units exactly as often as in the document if and only if each such piece hides below a node without id as often as pending text with it is used again |
| SiyuanConservation.ConservedExactlyWhenSettled | plugins-market/knowledge-siyuan/logic.js:312-326 | With nothing hidden, every piece that is more than white space is in the units exactly as often as in the document if and only if no text is pending when a child with an id comes |
| SiyuanConservation.ConservedExactlyWhenNothingHides | plugins-market/knowledge-siyuan/logic.js:106-117 | In a settled document a piece is lost exactly when a block with an id and visible text hangs below a node without id |
| SiyuanConservation.BlocksAreConserved | plugins-market/knowledge-siyuan/logic.js:312-326 | Prose whose top-level children all carry ids keeps every piece exactly when no visible text hides |
| SiyuanConservation.EachTextOnce | plugins-market/knowledge-siyuan/logic.js:312-326 | Prose whose top-level children carry ids, with no id-bearing node under an id-less one: the pieces in the units are exactly the own texts of the nodes, the breaks, the rendered images and the list markers, each as often as it occurs |
| SiyuanConservation.TextIsCutIntoUnits | plugins-market/knowledge-siyuan/logic.js:274-326 | In such prose, whether or not text hides, the order of the pieces over all units is: marker and loose text of a block, then its blocks one by one |
| SiyuanConservation.HiddenIsLost | plugins-market/knowledge-siyuan/logic.js:106-117 | A document of prose with ids at the top whose only text, in a block below a node without id, ends up in no unit |
| SiyuanConservation.PendingTwice | plugins-market/knowledge-siyuan/logic.js:274-274 | A document whose loose text before the first block ends up in two units |
| SiyuanConservation.OrderlyTextIsCutIntoUnits | plugins-market/knowledge-siyuan/logic.js:274-326 | If no child without id follows a block, the units, markers aside, cut the text of the document into consecutive pieces in its order |
| SiyuanConservation.RenderedBlocksInOrder | plugins-market/knowledge-siyuan/logic.js:224-326 | In every document each collected heading, code block and table row that renders to something is one unit of its own, in document order |
| SiyuanConservation.LooseTextBeforeRendered | plugins-market/knowledge-siyuan/logic.js:224-272 | Text before a rendered block at the top becomes a unit before it and is used up; blank text, and all text before a block that renders to nothing, stays pending |
| SiyuanConservation.SeparatedByBlankLines | plugins-market/knowledge-siyuan/logic.js:312-326 | Wherever the list of units is cut, a blank line stands between the parts |
| Utf8.DecodeBack | plugins-market/knowledge-siyuan/logic.js:62-66 | Decoding UTF-8 undoes encoding for every text |
| Utf8.Examples | plugins-market/knowledge-siyuan/logic.js:62-66 | Encodings of one to four bytes, among them examples of section 7 of RFC 3629 (supporting) |
| Utf8.OnlyEncodingsDecode | plugins-market/knowledge-siyuan/logic.js:62-66 | Only encodings decode: overlong forms, surrogates and stray bytes are rejected |
| SiyuanDecoding.DecodeBase64 | plugins-market/knowledge-siyuan/logic.js:43-67 | The loop decodes the significant characters in groups of four, and reads the bytes as UTF-8 or else one character each |
| SiyuanDecoding.Base64Back | plugins-market/knowledge-siyuan/logic.js:49-60 | Padded base64 of any bytes decodes to them; unpadded base64 decodes to them and zeros up to a full group |
| SiyuanDecoding.AlphabetIsStandard | plugins-market/knowledge-siyuan/logic.js:42-42 | The alphabet is table 1 of RFC 4648 (supporting) |
| SiyuanDecoding.NoiseIsIgnored | plugins-market/knowledge-siyuan/logic.js:44-44 | Characters outside the alphabet do not matter, wherever they are |
| SiyuanDecoding.TextIsReadBack | plugins-market/knowledge-siyuan/logic.js:43-67 | Any input whose significant characters are the padded base64 of the UTF-8 of a text decodes to that text |
| SiyuanDecoding.UnpaddedExactlyWhenFull | plugins-market/knowledge-siyuan/logic.js:50-53 | Unpadded base64 decodes to its bytes exactly when their number is divisible by three |
| SiyuanDecoding.UnescapeUndoesEscape | plugins-market/knowledge-siyuan/logic.js:366-373 | For any table of entities with the ampersand last, replacing in its order undoes the escaping |
| SiyuanDecoding.TagTextIsReadBack | plugins-market/knowledge-siyuan/logic.js:366-373 | Unescaping the five-entity escape of any text returns it: nothing is decoded twice |
| SiyuanDecoding.EntitiesSpelledOut | plugins-market/knowledge-siyuan/logic.js:366-373 | The five entities spelled out (supporting) |
| WorkspaceTree.SetPanePanes | design/js/workspace-engine.js:62-67 | Changing the pane that is found leaves all other panes, and their order |
| WorkspaceTree.DraggedRatio | design/js/workspace-engine.js:692-700 | A dragged ratio is within 0.15 and 0.85 exactly unless pointer offset and container extent are both zero (supporting) |
| WorkspaceTree.DragFollowsPointer | design/js/workspace-engine.js:692-700 | In a container with an extent the dragged ratio times the extent is the pointer offset, between 15 and 85 percent, and stops there |
| WorkspaceTree.SetRatioKeeps | design/js/workspace-engine.js:674-700 | Setting a ratio changes no pane and no id |
| WorkspaceTree.SetRatioSets | design/js/workspace-engine.js:674-700 | Exactly the ratio of the split that is found is set; every other split keeps ratio and direction |
| WorkspaceTree.SplitIds | design/js/workspace-engine.js:638-653 | After a split, which rebuilds every split of the tree, every id is still unique and new ids are above the counter |
| WorkspaceTree.SplitReplacesOnePane | design/js/workspace-engine.js:634-658 | Splitting replaces one pane, in the order of the panes, by a copy with the same tabs and a new pane with one tab, of the type of the tab that was shown and called after it, which is to be focused |
| WorkspaceTree.SplitKeepsDirections | design/js/workspace-engine.js:634-658 | The pane is replaced by a split of the given direction with ratio 0.55 and the old tabs first; every other split, though built anew, keeps its direction and ratio |
| WorkspaceTree.SplitMisses | design/js/workspace-engine.js:649-657 | Splitting a pane that is not there leaves all panes |
| WorkspaceTree.SplitAddsOneTab | design/js/workspace-engine.js:640-643 | Splitting keeps all tabs in order and adds one behind those of the pane |
| WorkspaceEngine.ClosedTabs | design/js/workspace-engine.js:479-491 | Closing removes exactly the tab with the id |
| WorkspaceEngine.CloseRemovesOneTab | design/js/workspace-engine.js:479-491 | Closing takes exactly that tab from the focused pane and keeps the others in order, unless it is the last one there; if it was active, the first one left becomes active; no other pane changes |
| WorkspaceEngine.AddAppendsOneTab | design/js/workspace-engine.js:660-668 | Adding puts one tab of the given type, with the title of its type, last in the focused pane and makes it active; no other pane changes |
| WorkspaceEngine.ActivateSelects | design/js/workspace-engine.js:467-477 | Activating changes nothing but the active tab of the focused pane |
| WorkspaceEngine.OthersStay | design/js/workspace-engine.js:634-668 | No operation but a drag changes a workspace that is not active (supporting) |
| WorkspaceEngine.SplitFocusesNewPane | design/js/workspace-engine.js:634-658 | Splitting a pane of the active workspace puts copy and new pane in its place, in the given direction, and focuses the new one |
| WorkspaceEngine.NewWorkspaceShows | design/js/workspace-engine.js:545-556 | A new workspace comes last, is the active one, and has one focused pane with a terminal, a query and a log tab, the first one active |
| WorkspaceEngine.NestShows | design/js/workspace-engine.js:715-727 | The preset has a focused pane on the left and two panes one above the other on the right, with its tabs and ratios (supporting) |
| WorkspaceEngine.MoveSetsRatio | design/js/workspace-engine.js:670-702 | A move gives the clamped ratio of the pointer to the split whose gutter was taken, in whatever workspace it is; no other split changes, and without a drag nothing does |
| WorkspaceEngine.InvStep | design/js/workspace-engine.js:459-708 | Every operation that the interface offers keeps ids unique over all workspaces, panes not empty, active tabs in their panes, and each focused pane in its tree |
| WorkspaceEngine.InvRun | design/js/workspace-engine.js:459-725 | So does every run of operations |
| WorkspaceEngine.RangeStep | design/js/workspace-engine.js:670-702 | Ratios stay within 0.15 and 0.85 in every operation except a drag at the edge of a container without extent, where they never do |
| WorkspaceEngine.RangeRun | design/js/workspace-engine.js:670-702 | A run of operations keeps all ratios in range throughout exactly when it has no such drag |
| WorkspaceEngine.RatioCanBeNoNumber | design/js/workspace-engine.js:670-702 | From every state that satisfies the invariants, splitting the focused pane, pressing on the gutter and moving at the edge of a container without extent leaves a ratio out of range |
| WorkspaceEngine.NewEngineLosesARatio | design/js/workspace-engine.js:670-702 | In particular a new engine is three operations away from it |
| WorkspaceEngine.Controller.constructor | design/js/workspace-engine.js:171-187 | The engine starts with two default workspaces that satisfy the invariants |
| WorkspaceEngine.Controller.FindActive | design/js/workspace-engine.js:213-216 | The position of the active workspace |
| WorkspaceEngine.Controller.CloseTab | design/js/workspace-engine.js:479-491 | Takes exactly the close step: the last tab of a pane stays, and a closed active tab is replaced by the first one |
| WorkspaceEngine.Controller.ReplaceNode | design/js/workspace-engine.js:638-654 | The recursion computes the split tree, the counter and the new pane |
| WorkspaceEngine.Controller.SplitActive | design/js/workspace-engine.js:634-658 | Takes exactly the split step |
| WorkspaceEngine.Controller.AddNewTab | design/js/workspace-engine.js:660-668 | Takes exactly the step that adds and activates a tab |
| WorkspaceEngine.Controller.AddWorkspace | design/js/workspace-engine.js:545-556 | Takes exactly the step that adds a default workspace and switches to it |
| WorkspaceEngine.Controller.Drag | design/js/workspace-engine.js:692-700 | Takes exactly the step that sets the clamped ratio of the dragged split |
| WorkspaceEngine.Controller.DragGutter | design/js/workspace-engine.js:670-708 | A whole drag of a gutter in the active workspace leaves the clamped ratio of the last move, whatever the moves before, and changes nothing else; without moves, or elsewhere, it changes nothing |
| CanonicalQuery.PercentEncode | crates/omnipanel-cloud-aliyun/src/client.rs:183-197 | The loop over bytes computes the percent encoding |
| CanonicalQuery.EncodedByte | crates/omnipanel-cloud-aliyun/src/client.rs:183-197 | Section 2.3 of RFC 3986: exactly letters, digits, -, ., _ and ~ stand for themselves; any other byte becomes a percent sign and two upper-case hexadecimal digits |
| CanonicalQuery.PlainStays | crates/omnipanel-cloud-aliyun/src/client.rs:183-197 | Text of such bytes is left alone |
| CanonicalQuery.DecodeEncode | crates/omnipanel-cloud-aliyun/src/client.rs:183-197 | Percent decoding, as in section 2.1 of RFC 3986, undoes the encoding of any bytes |
| CanonicalQuery.EncodedIsClean | crates/omnipanel-cloud-aliyun/src/client.rs:183-197 | Encoded text contains neither ampersand nor equals sign |
| CanonicalQuery.InsertIsUpdate | crates/omnipanel-cloud-aliyun/src/client.rs:1068-1082 | Inserting keeps the parameters sorted and changes the value of one key |
| CanonicalQuery.FirstDifferenceOrders | crates/omnipanel-cloud-aliyun/src/client.rs:1068-1082 | Keys are ordered by their first different byte, and a proper beginning comes first |
| CanonicalQuery.InsertedAll | crates/omnipanel-cloud-aliyun/src/client.rs:1080-1082 | After the caller's parameters the entries are sorted and theirs win |
| CanonicalQuery.SortedIsCanonical | crates/omnipanel-cloud-aliyun/src/client.rs:1068-1082 | Two sorted parameter lists with the same values are the same list |
| CanonicalQuery.QueryReadsBack | crates/omnipanel-cloud-aliyun/src/client.rs:1084-1088 | A server reads the parameters back from the canonical query |
| CanonicalQuery.RequestReadsBack | crates/omnipanel-cloud-aliyun/src/client.rs:1095-1100 | The request carries exactly the signed parameters and the signature |
| CanonicalQuery.StringToSignReadsBack | crates/omnipanel-cloud-aliyun/src/client.rs:1089-1093 | Method, path and all parameters can be read back from the string to sign |
| CanonicalQuery.StringToSignSpelledOut | crates/omnipanel-cloud-aliyun/src/client.rs:1084-1093 | The string to sign is GET&%2F& and the pairs, encoded twice, with %3D inside and %26 between them |
| CanonicalQuery.StringToSignIsInjective | crates/omnipanel-cloud-aliyun/src/client.rs:1084-1093 | Two parameter maps have the same string to sign exactly when they are the same map |
| AliyunListing.SelectVisibleCloudRegions | crates/omnipanel-cloud-aliyun/src/client.rs:538-599 | The loops compute the visible regions; the last fallback never adds anything |
| AliyunListing.VisibleRegions | crates/omnipanel-cloud-aliyun/src/client.rs:538-599 | Described regions come first and in order; shown are all configured ones, all described ones with ECS or SWAS instances, all described ones if no probe succeeded or none found anything, and nothing else; flags are those of the probes, and ids are distinct if the described ones are |
| AliyunListing.KeptInOrder | crates/omnipanel-cloud-aliyun/src/client.rs:538-599 | Wherever the described regions are cut, what is shown of the first part comes first (supporting) |
| AliyunListing.AddedInOrder | crates/omnipanel-cloud-aliyun/src/client.rs:538-599 | Wherever the configured ids are cut, those of the first part are added first (supporting) |
| AliyunListing.ListByTotal | crates/omnipanel-cloud-aliyun/src/client.rs:809-838 | The paging loop returns the first pages, as many as cover the reported total but at least one and at most 20, without gap or repeat, in at most 20 calls |
| AliyunListing.ReportedTotals | crates/omnipanel-cloud-aliyun/src/client.rs:713-745 | A server that reports its count is listed up to 20 pages, one that reports none only up to the first page |
| AliyunListing.ListsUpToTotal | crates/omnipanel-cloud-aliyun/src/client.rs:713-745 | Whatever total is reported: at most 20 pages are listed, less than the total only where the server has no more or the pages run out, and never a page more than it takes |
| SectionParser.CollectedTrims | crates/omnipanel-assistant/src/chat.rs:526-537 | Leaving out line breaks before the first text does not change the trimmed body |
| SectionParser.CollectBody | crates/omnipanel-assistant/src/chat.rs:526-537 | The inner loop returns the trimmed lines up to the next line of dashes |
| SectionParser.ReadSection | crates/omnipanel-assistant/src/chat.rs:504-540 | From any position, one section or a skipped line, and progress |
| SectionParser.ExtractSectionBodies | crates/omnipanel-assistant/src/chat.rs:500-569 | The scan ends on every input with the message bodies joined, else the bodies that are not suppressed, else nothing |
| SectionParser.ExtractMessage | crates/omnipanel-assistant/src/chat.rs:500-569 | The same for the raw text, split into lines as Rust does, with the tags of the program |
| SectionParser.OneKindDecides | crates/omnipanel-assistant/src/chat.rs:542-568 | Only message sections matter if there is one, else only the other ones; suppressed sections never do |
| SectionParser.TagsDecide | crates/omnipanel-assistant/src/chat.rs:542-568 | With the tags of the program: the bodies tagged user_message and ai___message are shown if there are any, else all but tool calls and results, reasoning, errors, plans and questions, else nothing |
| SectionParser.HeadingParses | crates/omnipanel-assistant/src/chat.rs:571-580 | A printed tag line parses to its tag |
| SectionParser.PrintedIsExtracted | crates/omnipanel-assistant/src/chat.rs:499-569 | Printing any list of tagged sections and extracting yields the trimmed bodies of the message tags in order, else of those not suppressed, else nothing |
| SectionParser.ReturnedLinesBack | crates/omnipanel-assistant/src/chat.rs:499-504 | Lines that end in a carriage return and a line break are read without either (supporting) |
| SecretMasking.RunIsMaximal | crates/omnipanel-ai/src/redact.rs:62-70 | A word is a maximal run of word bytes |
| SecretMasking.TextIsWellPlaced | crates/omnipanel-ai/src/redact.rs:57-57 | In the UTF-8 of any text a continuation byte follows a byte that is not ASCII |
| SecretMasking.RedactValuePatterns | crates/omnipanel-ai/src/redact.rs:56-87 | The byte loop computes the simple specification, in which exactly the maximal words that look like tokens are replaced, and never cuts inside a character |
| SecretMasking.MaskedIsIdempotent | crates/omnipanel-ai/src/redact.rs:56-87 | Masking twice is masking once |
| SecretMasking.WordIsMasked | crates/omnipanel-ai/src/redact.rs:56-87 | Wherever a whole word stands in a text, it is replaced by *** if it looks like a token and kept if not, and the text around it is masked on its own |
| SecretMasking.NoTokenIsLeft | crates/omnipanel-ai/src/redact.rs:56-87 | After masking, no whole word of the text looks like a token |
| SecretMasking.PrefixedTokens | crates/omnipanel-ai/src/redact.rs:48-52 | Words with the prefixes sk-, AKIA, ghp_ and glpat- look like tokens exactly from 10, 13, 17 and 15 bytes behind the prefix on |
| SecretMasking.WebTokens | crates/omnipanel-ai/src/redact.rs:53-53 | So do three parts with dots between them that start with eyJ and are longer than 40 bytes |
| SecretMasking.EnvLineIsIdempotent | crates/omnipanel-ai/src/redact.rs:89-97 | Redacting an environment line twice is redacting it once, and equals signs neither appear nor vanish |
| SecretMasking.EnvSecretIsGone | crates/omnipanel-ai/src/redact.rs:89-93 | The value of a secret variable is replaced whole |
| SecretMasking.EnvLineInList | crates/omnipanel-ai/src/redact.rs:136-144 | Anywhere in a JSON list, a line that sets a secret variable loses its value |
| SecretMasking.OtherLineInList | crates/omnipanel-ai/src/redact.rs:115-144 | Any other line of a list, also under an env key, keeps its key and is masked word by word behind its first equals sign |
| SecretMasking.JsonIsIdempotent | crates/omnipanel-ai/src/redact.rs:99-148 | Redacting a JSON value twice is redacting it once |
| SecretMasking.RedactedJsonIsMasked | crates/omnipanel-ai/src/redact.rs:99-148 | After redaction every secret key of every object at any depth has the mask or the empty string |
| SecretMasking.ShapeStays | crates/omnipanel-ai/src/redact.rs:99-148 | Redaction changes nothing but texts: keys, lengths, numbers, truth values and nulls stay, except for what a secret key has |
| SecretMasking.CaseDoesNotMatter | crates/omnipanel-ai/src/redact.rs:5-45 | What counts as a secret key, a secret variable or an env key does not depend on case |
| SecretMasking.NamedKeys | crates/omnipanel-ai/src/redact.rs:5-33 | The keys that are secret by name (supporting) |
| SecretMasking.TellingKeys | crates/omnipanel-ai/src/redact.rs:5-45 | A key with password, secret or passphrase anywhere in it is secret, and so is a variable with apikey or api_key |
| SecretMasking.TokenKeys | crates/omnipanel-ai/src/redact.rs:34-38 | A key that ends in token is secret, except for the continuation token of a listing |
| SecretMasking.RedactionIsFinal | crates/omnipanel-ai/src/redact.rs:12-148 | Both with the key and token tests of the program |
| VersionList.CompareVersionDesc | website/src/releases.ts:196-206 | The loop over components computes the difference at the first position where the zero-padded components differ |
| VersionList.FirstDifferenceDecides | website/src/releases.ts:201-204 | That position alone decides, with the sign of the newer version |
| VersionList.ComponentsReadBack | website/src/releases.ts:196-198 | The components of a printed version, with or without a v in front, are its numbers |
| VersionList.GreaterNumberComesFirst | website/src/releases.ts:196-206 | Numbers are compared, not texts: with the same numbers before it the greater number comes first, as 1.10 before 1.9 |
| VersionList.EqualMeansSameComponents | website/src/releases.ts:196-206 | Two versions compare equal exactly when their zero-padded components agree |
| VersionList.SignFlips | website/src/releases.ts:196-206 | Comparing the other way round flips the sign |
| VersionList.NotLaterIsTransitive | website/src/releases.ts:196-206 | The comparator is transitive, and equal only over equal versions in between: with the sign law a total preorder |
| VersionList.StableSortIsUnique | website/src/releases.ts:190-190 | A stable sort by this comparator has only one possible result |
| VersionList.SortedIsStable | website/src/releases.ts:190-190 | Inserting one entry after another is such a sort: a permutation, newest first, that keeps entries of equal versions in their order |
| VersionList.ValidInOrder | website/src/releases.ts:183-190 | An entry counts exactly if it has a version and platforms, and those that do stay in their order |
| VersionList.LatestEntry | website/src/releases.ts:173-181 | The latest manifest as an entry: its tag has a v in front, its version has none, and missing platforms read as none at all (supporting) |
| VersionList.ResolveVersionList | website/src/releases.ts:183-194 | Whatever stable sort the engine has, the list is the newest-first permutation of the entries with version and platforms, or else the latest manifest alone, or nothing |

## Left out

- HTTP, OSS, SSH and SQLite transport, tokio internals: uploads, remote results, reads and writes are steps or parameters that may fail at any point.
- HMAC signing, encryption, clocks and random ids: parameters; only the strings and bytes given to them matter.
- Serialisation of JSON to text: JSON is a datatype, and one value is one line. The array form that serde also accepts for tagged events is not read.
- TaskPool: the semaphore grants permits in any order, so first-in first-out granting is not modelled; module, kind and title of a task never change and are left out; task ids are numbers.
- BackgroundWorkerPool: the whole operations run undisturbed from any reachable state; interleavings are those of the state machine. Map cleanup is modelled step by step, but no clean-map invariant is claimed, because late handle inserts and aborts leave entries behind. `list_running` is not modelled.
- PublishProtocol: a presigned upload URL, which would send every upload to one place, is assumed absent; sizes, etags and dry runs are not modelled. An upload replaces an object at once.
- ObjectKeys: `sanitize_path_segment` and the run id are not modelled; a leaf is any text without a slash, and an override is given already trimmed of white space.
- TmuxProtocol: whether a host is idle, and every answer of the remote side, is arbitrary. An attach is not cancelled halfway. The marks are swept only where an attach begins; the second look at the reason after a refusal changes no answer. Window ids, versions and terminal output are not modelled.
- TmuxManager.SharedManager.Attach: runs undisturbed; interleaved attaches are covered by the state machine.
- AgentSession: streams and inputs are finite; which model a chat opens and the proxy settings are part of the behaviour of the source.
- AgentProtocol.WriteJsonLine: a failed write leaves no partial line; the session ends there in any case.
- AgentHost: process start, restart after a breakdown, and the handshake's version test are not modelled.
- AgentHost.HostAndSidecarStayInStep: requires ids that fit 64 bits, as the counter of the program does.
- SiyuanUnits: what headings, code blocks, table rows, images and marked text are rendered to is data of the node; only their place in the flattening is modelled.
- SiyuanConservation.Balance: speaks of prose; headings, code blocks and table rows add, skip or revisit text by design.
- SiyuanDecoding: strings are sequences of characters, bytes that are no UTF-8 are read one character each; the case in which a decoder throws on its first try does not occur.
- WorkspaceTree: a pane or split is a value in the tree of its workspace, found by its id, instead of an object that handlers share. The seed trees of the host page reuse ids and are not covered; all ids come from the counter.
- WorkspaceEngine: rendering, menus and the home page; a second drag that starts before the first one ends.
- WorkspaceEngine.InvStep: requires that only panes, tabs and workspaces on display can be clicked, since every operation renders anew.
- CanonicalQuery: text is given as its UTF-8 bytes; the eight standard parameters are any sorted list.
- AliyunListing.ListByTotal: the two loops that trust the reported total; `list_domains`, which also stops at a short page, is not modelled. A failing call ends the listing with its error.
- SectionParser: the JSON forms of a chat message are not modelled.
- SecretMasking: the choice between JSON and plain lines in `redact_secrets_in_text` is not modelled.
- VersionList: numbers are exact integers; what the sort of the engine returns is only assumed to be stable and in order.
- Document titles and tags, download items and dates would add only easy members.
