# Verification of the tunnel engine

A Dafny model of the parts of the tunnel engine where several threads, goroutines or
processes share state, and of the loops that carry bytes between two sockets, with proofs
of what they keep over every interleaving, every run and every script of answers from the
outside. `dafny verify dfyconfig.toml` checks the whole project.

## What is modelled

Two styles are used.

*Step models.* Threads that run concurrently are automata with a program counter each. A
state holds all of them, `Next` takes one shared-memory action of one of them, and a run
is any interleaving of such steps. Each module gives an initial state, an inductive
invariant (`Inv`), a lemma that every reachable state has it (`RunsKeepInv`), and the
theorems that follow. Safety alone would hold of an engine that does nothing, so each module
also says what its calls accomplish and, where the environment decides, that its good
answers are open: any number of connections can be served at once. Where order matters, the state carries a trace of observable events,
and a relation `MayFollow` says which event may come after which.

*Imperative models.* Loops that change buffers, tables and fields are methods over arrays
and objects, proved against functions or ghost histories. The outside world (sockets,
libssh2 channels, WriteFile, select) is a script of answers that the proof knows nothing
about; a script that runs out answers with failure, so every finite behaviour of the
outside is some script. The stop flag may turn false between any two looks and then stays
so.

| module | part of the engine | style |
|---|---|---|
| SshExportModel, SshExportInvariant, SshExportSafety, SshExportShutdown, SshExportService | accept thread, pump workers, reaper and `Close` of the SSH export, with its three mutexes | step model |
| ImportTeardown | accept worker, forwarding threads and `Close` of an SSH import | step model |
| GoExporter | accept, serve and `Close` goroutines of a mesh export | step model |
| MeshForward | accept thread, pumps, bridges and `Close` of a mesh import | step model |
| TunnelRegistry, TunnelManagement | the tunnel manager under concurrent callers, and its fields as a class | step model and class |
| ExportHandles | export handles from `MeshExporter` through the backend to the shim node | step model and class |
| ShimCache | the Windows shim cache with many processes and crashes | step model and loop |
| Streams, Turns, ChunkLog, ImportScript, Pumps | `SendAll` and the three byte pumps, turn by turn; what the import's loses | imperative, and functions |
| OsHandles | the multi-address dial loop, the Windows stream pair, and all handles of a mesh import | imperative |
| JsonBuffer | the two-shot buffer contract across the C ABI | imperative |
| Tags | the tag normaliser | functions, and the loop |
| MeshLatch, NodeCache | the single-mesh latch; the identity-keyed node cache and `EnsureUp` | functions, and classes |

`Bytes` and `Handles` hold the byte type and the table of open handles that the imperative
modules share. The state of a step model is a value; its history parts (traces, places,
keepers, fates) are read by no step. The classes of `TunnelManagement` and `ExportHandles`
carry the state of their step model as a ghost field. Every method that changes the object
is proved to take a step of that model, or a stretch of steps, on the object's own fields,
and `Elsewhere` lets the model move by the steps of everybody else.

## Where the code does less than one might expect

Four properties hold only under a condition. Each is stated with the exact condition, over
what is given before the call, and with an input on which it fails.

- *Import pump.* A write to the channel that reports EAGAIN abandons the rest of its chunk
  (`src/tunnel_connection.cpp:588-598`). Whatever the client sends, what reaches the channel
  is a prefix of what was read if and only if the channel takes nothing between an EAGAIN
  and the refusal that ends the pump (`ImportScript.FaithfulIffNeverResumes`; one half of it
  for every stop and every traffic in `Pumps.ForwardData`). `ImportScript.AgainCanDropBytes`
  reads 1, 2, 3 and delivers 1, 3.
- *Mesh import.* `Close` joins the accept thread and the pumps, but nobody waits for the
  bridges (`shim/ts/main.go:376`, `src/mesh_forwarder.cpp:165-184`). After it, the process
  has the handles it had before and the two ends of each bridge that has not finished, so
  nothing is left exactly when every bridge has finished (`OsHandles.ForwarderLifetime`,
  `MeshForward.NothingOpenIffBridgesDone`). A peer that keeps its connection and stays
  silent keeps two handles open (`OsHandles.SilentPeerKeepsHandles`).
- *Shim cache.* A cached file is accepted by its size alone
  (`src/mesh_loader.cpp:217-223`), so the paths handed out name complete libraries exactly
  when no file already in the cache has the right size with other contents
  (`ShimCache.PathsAreCompleteIffSound`, `ShimCache.CorruptEntryIsReturned`).
- *Node cache.* The key joins secret name and options with 0x1f without escaping
  (`src/mesh_backend.cpp:239-243`). No other lookup has a lookup's key if and only if none
  of its options contains that character and no 0x1f in its name is followed by a part that
  is `1` or `2`, and so could be read as the kind (`NodeCache.KeyIsOwnIffUnmistakable`; for
  options alone, under one name, `NodeCache.OptionsIdentifiedIffClean`). Every other lookup
  is given some different lookup's backend (`NodeCache.OwnBackendIffUnmistakable`).
  `NodeCache.SeparatorCollides` and `NodeCache.HiddenKindExample` are inputs of both kinds.

A library can also stay loaded beside the one that wins the latch, when an earlier
activation failed after loading (`MeshLatch.TwoKindsCanBeLoaded`). And the comment at
`src/tunnel_connection.cpp:546-549` says finished forwarding threads are reaped along the
way; the code does not do so, and neither does the model.

## Model

| member | source | states |
|---|---|---|
| SshExportInvariant.InvPreserved | src/ssh_exporter.cpp:258-487 | every step of the acceptor, of any worker and of Close keeps the invariant that ties program counters, locks, workers, channels, sockets, listener and session together |
| SshExportInvariant.RunsKeepInv | src/ssh_exporter.cpp:258-487 | every reachable state of every interleaving has the invariant |
| SshExportInvariant.AccountsPreserved | src/ssh_exporter.cpp:287-334 | a started worker is owed exactly one join by exactly one of the vector, the acceptor's locals (also between thread start and registration) and Close's locals, until it has been joined |
| SshExportSafety.NoNestedLocks | src/ssh_exporter.cpp:236-334 | in no run does a thread ever own two of the three mutexes |
| SshExportSafety.JoinsHoldNoLock | src/ssh_exporter.cpp:314-334 | in every run, no thread joins another while it owns a mutex |
| SshExportSafety.CallersOwnSession | src/ssh_exporter.cpp:275-285 | whoever is about to call libssh2 owns the session mutex |
| SshExportSafety.CallsExclude | src/ssh_exporter.cpp:336-436 | in no run are two threads ever both ready to call libssh2 |
| SshExportSafety.EventInTime | src/ssh_exporter.cpp:438-487 | an event never comes after one that forbids it |
| SshExportSafety.RunsAreOrdered | src/ssh_exporter.cpp:438-487 | in every run: no libssh2 call after the session is freed, none on a channel after that channel is freed or its worker joined, the listener cancelled before the session goes, no start, accept or join too late |
| SshExportSafety.ClosedRunsLeaveNothing | src/ssh_exporter.cpp:438-487 | in every run, when Close has returned no thread runs, each worker was joined once, each accepted channel freed once, each local socket closed as often as opened, the session freed once |
| SshExportSafety.SecondCloseDoesNothing | src/ssh_exporter.cpp:438-487 | a later Close emits nothing and changes nothing but its own progress |
| SshExportShutdown.NoDeadlock | src/ssh_exporter.cpp:336-487 | in every reachable state with Close pending some thread can take a step, and not merely a new reader |
| SshExportShutdown.StepsDescend | src/ssh_exporter.cpp:258-487 | once stopped, every step of every thread uses up a common bound |
| SshExportShutdown.ShutdownIsBounded | src/ssh_exporter.cpp:258-487 | from a stopped state no schedule runs longer than that bound |
| SshExportShutdown.CloseReturns | src/ssh_exporter.cpp:438-487 | a schedule that can go no further has finished a pending Close and left the closed state behind |
| SshExportShutdown.RunsShutDown | src/ssh_exporter.cpp:438-487 | in every run, what follows the stop is bounded, and when nothing can move any more a pending Close has left the closed state |
| SshExportShutdown.AtMostOneLateWorker | src/ssh_exporter.cpp:258-296 | in every run at most one more worker is started after running_ turned false |
| SshExportService.DoneAreJoinedBeforeSpawn | src/ssh_exporter.cpp:314-334 | in every run, each worker whose done flag was set when the acceptor turned to reaping has been joined, exactly once, before the next worker is started |
| SshExportService.RunningMeansAccepting | src/ssh_exporter.cpp:258-312 | in every run, while the engine runs its acceptor has not returned and its listener is up |
| SshExportService.DeadTransportStops | src/ssh_exporter.cpp:298-308 | an acceptor that met a dead transport accepts nothing more, and has stopped the engine when it returns |
| SshExportService.RunsMakeTheirCalls | src/ssh_exporter.cpp:336-487 | in every run each freed channel was closed before, the disconnect comes after the session was made blocking and given a time limit, each look at the accept queue is followed by one keepalive, and the cancel is tried at most 201 times |
| SshExportService.ClosedRunsSaidGoodbye | src/ssh_exporter.cpp:472-478 | after Close each accepted channel was closed exactly once, and the session made blocking, limited and disconnected exactly once if there was one |
| SshExportService.ServesAnyNumber | src/ssh_exporter.cpp:258-312 | for every n some run has n workers in their pump loops and the acceptor waiting for more |
| SshExportService.RelaysBothWays | src/ssh_exporter.cpp:350-436 | any of them can write a chunk of any size and read one of any size and be back in its loop, with nothing else changed |
| SshExportService.EndsByItself | src/ssh_exporter.cpp:350-436 | any of them can end with the engine running on: end of stream passed on, local socket closed, channel closed, channel freed, in this order |
| ImportTeardown.RunsKeepInv | src/tunnel_connection.cpp:266-309 | every reachable state of the import keeps the accounting of threads, channels and session |
| ImportTeardown.RunsAreOrdered | src/tunnel_connection.cpp:266-309 | in every run no libssh2 call and no join follows the free of the session, none on a channel follows its free |
| ImportTeardown.ClosedRunsLeaveNothing | src/tunnel_connection.cpp:266-309 | after Close no thread runs, every forwarding thread was joined and every channel freed exactly once, and the session was disconnected and freed exactly once |
| ImportTeardown.NoDeadlock | src/tunnel_connection.cpp:281-294 | joining with the lock of the thread vector held cannot deadlock |
| ImportTeardown.CloseReturns | src/tunnel_connection.cpp:266-309 | once stopped every schedule is bounded and ends with Close finished |
| ImportTeardown.ServesAnyNumber | src/tunnel_connection.cpp:502-556 | for every n some run has n connections being forwarded and the worker waiting for more |
| ImportTeardown.RelaysBothWays | src/tunnel_connection.cpp:562-623 | any of them can use its channel in both directions and be back in its loop |
| ImportTeardown.LateClientGetsNoChannel | src/tunnel_connection.cpp:530-533 | in every run, a client accepted after the stop gets no channel, and no later one does |
| GoExporter.RunsKeepInv | shim/meshpair/export.go:48-161 | every reachable state keeps every held connection where Close can reach it |
| GoExporter.ClosedStaysEmpty | shim/meshpair/export.go:100-115 | once closed is set conns stays empty for ever |
| GoExporter.CopiesAreReleased | shim/meshpair/export.go:139-161 | after Close's loop both connections of every serve in its copy stage have been closed |
| GoExporter.ConnsAreHeld | shim/meshpair/export.go:100-115 | before Close, conns is exactly the set of connections the serves hold |
| GoExporter.ServedLeavesNothing | shim/meshpair/export.go:65-98 | a serve that has returned has closed its connections and left none of them tracked |
| GoExporter.ShutdownIsNotAnError | shim/meshpair/export.go:48-63 | the accept error caused by the shutdown is never recorded as the last error |
| GoExporter.LastErrorIsLatest | shim/meshpair/export.go:48-81 | in every run a recorded failure, a refused dial or an accept error before Close, is the last error until another failure is recorded |
| GoExporter.NoErrorIffQuiet | shim/meshpair/export.go:117-126 | in every run there is no last error if and only if no dial was refused and no accept failed before Close |
| GoExporter.CopiesAreUndisturbed | shim/meshpair/export.go:65-98 | in every run, until Close is called both connections of every copy stage are open |
| GoExporter.ServesAnyNumber | shim/meshpair/export.go:48-98 | for every n some run has n serves copying and the exporter accepting more |
| GoExporter.DrainDescends | shim/meshpair/export.go:65-98 | after Close every further step brings the exporter closer to having no goroutine |
| GoExporter.NobodyStranded | shim/meshpair/export.go:139-161 | after Close every goroutine left can run, whatever the connections do |
| GoExporter.RunsDrain | shim/meshpair/export.go:139-161 | in every run, what the goroutines still do after Close is bounded, and when nothing can move any more none is left |
| MeshForward.RunsKeepInv | src/mesh_forwarder.cpp:89-184 | every reachable state of accept thread, pumps, bridges, readers and Close keeps the accounting of threads, clients and handles |
| MeshForward.RunsAreOrdered | src/mesh_forwarder.cpp:165-184 | in every run no handle is closed twice, no thread joined twice, no pump acts after its join, and the listener is closed after every thread of the forwarder is done |
| MeshForward.ClosedRunsKeepBridges | src/mesh_forwarder.cpp:120-184 | in every run, when Close has returned, every pump was joined once and what is still open is exactly what the unfinished bridges keep |
| MeshForward.NothingOpenIffBridgesDone | shim/ts/main.go:292-308 | after Close nothing is left open if and only if every bridge has finished |
| MeshForward.NoDeadlock | src/mesh_forwarder.cpp:165-178 | joining the pumps with mu_ held cannot deadlock against the accept loop or a reader, whatever the bridges do |
| MeshForward.CloseReturns | src/mesh_forwarder.cpp:165-184 | in every run the forwarder's own steps after the stop are bounded and end with Close returned, though bridges may never finish |
| MeshForward.RunningMeansAccepting | src/mesh_forwarder.cpp:89-118 | in every run, while the forwarder runs its accept thread is there, its listener is open, and no client is dropped as late |
| MeshForward.LateClientIsDropped | src/mesh_forwarder.cpp:103-107 | in every run a client accepted after the stop is closed, never linked, and is the last one |
| MeshForward.BridgeWaitsForBoth | shim/ts/main.go:292-308 | in every run a bridge that has begun to close its ends has seen both its copies end |
| MeshForward.ServesAnyNumber | src/mesh_forwarder.cpp:89-118 | for every n some run has n clients pumped and bridged and the accept thread waiting for more |
| TunnelRegistry.RunsKeepInv | src/tunnel_manager.cpp:84-263 | under any interleaving of calls every handle is in exactly one pair of hands |
| TunnelRegistry.IdsNeverReused | src/tunnel_manager.cpp:261-263 | no two creates return the same id |
| TunnelRegistry.InsertNeverOverwrites | src/tunnel_manager.cpp:84-141 | an insert never replaces a registered handle |
| TunnelRegistry.TrueOncePerId | src/tunnel_manager.cpp:149-168 | CloseTunnel answers true at most once per id |
| TunnelRegistry.StaysOnPath | src/tunnel_manager.cpp:84-259 | in every run a call made as CloseTunnel(id) answers found for that id or missing and for no other; a create answers with an id or a failure |
| TunnelRegistry.CloseTunnelCloses | src/tunnel_manager.cpp:149-168 | in every run CloseTunnel(id) answers true exactly when id was registered at its own lookup, takes that entry alone out of the map, and has closed that tunnel's handle once and nothing else |
| TunnelRegistry.CloseAllCloses | src/tunnel_manager.cpp:215-235 | in every run CloseAllTunnels leaves the map empty and has closed every handle that was in it once, and no other |
| TunnelRegistry.CameThrough | src/tunnel_manager.cpp:149-235 | a CloseTunnel or CloseAllTunnels that has answered has been through its lookup or its taking of the map |
| TunnelRegistry.CreateRegisters | src/tunnel_manager.cpp:84-141 | in every run a create that answered with an id has put a handle of its own under that id |
| TunnelRegistry.TakerCloses | src/tunnel_manager.cpp:215-259 | over every run the operation that removed a handle is the only one ever to have it and the one that closes it |
| TunnelRegistry.ClosedOutsideLock | src/tunnel_manager.cpp:160-167 | a handle is closed by its taker and not while the taker holds the lock |
| TunnelRegistry.ClosedAtMostOnce | src/tunnel_manager.cpp:149-259 | across all operations a handle is closed at most once |
| TunnelRegistry.NothingLeaks | src/tunnel_manager.cpp:84-259 | once all calls have returned each started handle is registered under one id or was closed exactly once |
| TunnelRegistry.NoDeadlock | src/tunnel_manager.cpp:84-259 | while some call has not returned one of them can step |
| TunnelManagement.TunnelManager.GenerateTunnelId | src/tunnel_manager.cpp:261-263 | on the manager's own fields, the step of the model that draws a create's id |
| TunnelManagement.TunnelManager.Register | src/tunnel_manager.cpp:84-88 | on the manager's own fields, the insert step of the model |
| TunnelManagement.TunnelManager.TakeOne | src/tunnel_manager.cpp:149-159 | on the manager's own fields, the find step of the model, for a registered and for an unknown id |
| TunnelManagement.TunnelManager.TakeAll | src/tunnel_manager.cpp:215-227 | the copy loop of CloseAllTunnels is the step that takes every handle and empties the map |
| TunnelManagement.TunnelManager.TakeInactive | src/tunnel_manager.cpp:237-255 | the erase loop leaves exactly the active entries, returns the handles of the others in map order, and is a stretch of scan steps of the model |
| TunnelManagement.ScanRuns | src/tunnel_manager.cpp:242-255 | for every order and every set of active handles the scan has a run from the locked state to the one the erase loop reaches |
| ExportHandles.Node.AddExport | shim/ts/main.go:55-65 | the export step of the model on the node's own table; the handle is positive and was never issued before |
| ExportHandles.Node.TakeExport | shim/ts/main.go:67-73 | only the named handle goes; an unknown one changes nothing |
| ExportHandles.Node.Unexport | shim/ts/main.go:332-342 | the unexport step of the model on the node's own table; a listener is closed unless the node was closed first |
| ExportHandles.Node.CloseAllExports | shim/ts/main.go:75-86 | closing the node empties the table at once and then closes exactly its listeners, each by a step of the model |
| ExportHandles.RunsKeepInv | src/mesh_exporter.cpp:31-99 | every issued handle has exactly one keeper: a Start, an exporter, a Close call, or nobody once unexported; every listener is in the table, in the node's closing loop, or closed once |
| ExportHandles.UnexportedAtMostOnce | src/mesh_exporter.cpp:81-99 | under any number of concurrent Close calls Unexport is called at most once for a handle, and while the node is up its listener is live exactly until then |
| ExportHandles.TakerUnexports | src/mesh_exporter.cpp:84-96 | the Close call that took a handle has, when it returns, called Unexport for it exactly once, and no other call took it |
| ExportHandles.CloseTakesWhatItFinds | src/mesh_exporter.cpp:81-99 | in every run a Close call that finds its exporter listening takes the handle it finds, has unexported it exactly once when it returns, and the exporter never listens again |
| ExportHandles.ListeningIsLive | src/mesh_exporter.cpp:31-46 | in every run a listening exporter's handle is in the node's table while the node is up, and is no other exporter's |
| ExportHandles.OthersStay | shim/ts/main.go:332-342 | in every run a handle stops being live only by the Unexport of the Close call that has it, or with the whole node |
| ExportHandles.ReleasedMeansUnexported | src/mesh_exporter.cpp:31-46 | for a handle that no Start, exporter or Close still has, Unexport was called exactly once |
| ExportHandles.ListenersClosedOnce | shim/ts/main.go:75-86 | closing the node and closing exports in any interleaving closes no listener twice, and leaves none open once both are done |
| ShimCache.RunsKeepInv | src/mesh_loader.cpp:208-262 | every step of every process, crashes included, keeps temporary files matching what was written and published files sound |
| ShimCache.NeverHalfWritten | src/mesh_loader.cpp:225-262 | from absent-or-complete files, the published path is always absent or complete |
| ShimCache.PathsAreCompleteIffSound | src/mesh_loader.cpp:208-262 | every returned path, also after a lost rename race, names a complete library if and only if no cached file has the right size and wrong contents |
| ShimCache.CorruptEntryIsReturned | src/mesh_loader.cpp:217-223 | a run that returns a corrupt file, from any cache that has one of the right size |
| ShimCache.ThrowsIffStepFailed | src/mesh_loader.cpp:225-262 | over every run a finished call has thrown if and only if its temporary file could not be made, a write failed, or it lost the rename and found no file of the right size |
| ShimCache.HitReturnsAtOnce | src/mesh_loader.cpp:217-223 | a call that finds a file of the right size returns and writes nothing; any other goes on to write |
| ShimCache.LeavesNoTemp | src/mesh_loader.cpp:225-262 | a call that made a temporary file and has finished, either way, has left none |
| ShimCache.PublishesAlone | src/mesh_loader.cpp:208-262 | from every cache, whatever a crash left there, some run of one process publishes the complete library and returns |
| ShimCache.WriteBlob | src/mesh_loader.cpp:234-247 | the chunked loop succeeds exactly when the whole blob is in the file and exactly when no write failed, and otherwise leaves a proper prefix |
| Streams.SendAll | src/include/socket_compat.hpp:201-228 | true exactly when every byte was delivered once and in order; false leaves a proper prefix and has a cleared flag or a failed socket behind it |
| Pumps.WriteChunk | src/ssh_exporter.cpp:376-397 | the export's write loop delivers the chunk in order and stops short only on failure or stop |
| Pumps.SshExportPump | src/ssh_exporter.cpp:350-436 | each direction delivers a prefix of what its peer sent, with at most one buffer missing; an end is forwarded exactly when seen and after everything before it; every turn begins with a look at the flag and takes one entry of each script, none follows an end, and the pump gives up only on an end, a refused write or the stop; undisturbed, on ends that take what they are offered, it delivers everything in both directions up to the end of the shorter script |
| Pumps.MeshPump | src/mesh_forwarder.cpp:120-163 | with one shared buffer each direction delivers a prefix of its own source, an end leaves its direction complete, and both sockets are closed once; in every turn each side that select reported is read once, and the pump gives up only where select fails, a reported side has nothing more, a write is refused, or on the stop |
| Pumps.ImportWrite | src/tunnel_connection.cpp:588-598 | the import's write loop delivers in order, ends as the channel's answers allow, and stops short only on failure, EAGAIN or stop |
| Pumps.ForwardData | src/tunnel_connection.cpp:562-623 | the channel gets the client's stream with a suffix dropped only from chunks that met EAGAIN or from the last; a prefix on every channel that never resumes after EAGAIN; undisturbed, exactly the log of ImportLog; the client always gets a prefix; every turn takes one entry of each script and none follows an end; on ends that take what they are offered everything is delivered |
| ImportScript.FaithfulIffNeverResumes | src/tunnel_connection.cpp:588-598 | what reaches the channel is a prefix for every client if and only if the channel takes nothing between an EAGAIN and the refusal that ends the pump |
| ImportScript.AgainCanDropBytes | src/tunnel_connection.cpp:588-598 | a client and a channel for which the pump reads 1, 2, 3 and delivers 1, 3 |
| ChunkLog.NoAgainMeansPrefix | src/tunnel_connection.cpp:588-598 | drops only after EAGAIN or in the last chunk, and no EAGAIN, make a prefix |
| ChunkLog.PrefixIffNoGap | src/tunnel_connection.cpp:562-623 | for the chunks and cut-offs of any log, also of a stopped run or one with traffic from the channel: the output is a prefix whatever the bytes are, if and only if nothing was written after a chunk cut short |
| OsHandles.DialTcp | src/ssh_exporter.cpp:20-77 | the socket returned is that of the first address that connects and the only one left open; failure leaves none and says whether a timeout was seen; waiting is at most the timeout per address |
| OsHandles.NewPair | shim/meshpair/pair_windows.go:55-123 | succeeds exactly when the setup does and our own connection arrives first among the gated ones before Accept fails; then exactly two handles stay open, otherwise none |
| OsHandles.MeshDial | shim/ts/main.go:344-379 | on success the caller owns one handle and the bridge two; every failure releases the pair |
| OsHandles.AcceptLoop | src/mesh_forwarder.cpp:89-118 | every accepted client is closed again or becomes one link with four handles of its own, one link for each dial that succeeds before a late client |
| OsHandles.Bridge | shim/ts/main.go:292-308 | the bridge closes its two ends exactly when both copies have ended, and otherwise neither |
| OsHandles.ForwarderLifetime | src/mesh_forwarder.cpp:89-184 | from listening socket to the end of Close the process is left with the handles it had and exactly the two ends of each unfinished bridge; with exactly what it had if and only if every bridge of a served connection has finished |
| OsHandles.SilentPeerKeepsHandles | shim/ts/main.go:303-307 | one client served and gone, and a silent mesh peer: two handles stay open after Close |
| JsonBuffer.WriteJson | shim/ts/main.go:416-431 | writes inside the given length only, and only when the document and its NUL fit; otherwise says how much is needed |
| JsonBuffer.FetchJson | src/mesh_backend.cpp:118-160 | the document of the successful call comes back unchanged in at most two calls and never with a buffer past the cap, and exactly when it fits |
| JsonBuffer.CStringStops | src/mesh_backend.cpp:140 | reading up to the first NUL recovers a NUL-free document whatever follows it in the buffer |
| Tags.ParsedTagsAreTags | shim/ts/main.go:176-199 | the fixed tag first, no duplicates, every element prefixed and free of separators, the set being the fixed tag and the normalised fields |
| Tags.ParsedTagsKeepOrder | shim/ts/main.go:176-199 | the result is in order of first occurrence |
| Tags.ParseIsStable | shim/ts/main.go:176-199 | parsing the comma-joined result gives the same list |
| Tags.EarlyReturnIsHarmless | shim/ts/main.go:179-181 | the early return on blank input agrees with the general path |
| Tags.FieldsOfJoin | shim/ts/main.go:182-184 | splitting a comma-joined list of words gives the words back |
| Tags.OneWord | shim/ts/main.go:185-197 | in plain characters: a single word comes back behind the fixed tag with the prefix added if it had none, and only the fixed tag comes back if that is what it names |
| Tags.SeparatedParts | shim/ts/main.go:176-199 | two inputs joined by any separator give the tags of the first and then those of the second that are not among them |
| Tags.FieldsWithGaps | shim/ts/main.go:182-184 | every input is its fields, in order and unchanged, with only commas, blanks, tabs and semicolons between and around them, none of which is in a field |
| Tags.TrimTakesEnds | shim/ts/main.go:186 | trimming takes a run of white space off each end and leaves none there |
| Tags.ParseTags | shim/ts/main.go:176-199 | the loop over the fields with its seen-map computes the list the lemmas above are about |
| MeshLatch.LatchHolds | src/mesh_loader.cpp:338-412 | once set, the latch, its API and the loaded libraries never change again |
| MeshLatch.SuccessesAgree | src/mesh_loader.cpp:352-356 | every success returns the same API, for the latched kind |
| MeshLatch.OthersRefused | src/mesh_loader.cpp:357-361 | after a success every activation of another bundled kind is refused because of the active one, and of one not bundled as such |
| MeshLatch.SameKindSucceedsAgain | src/mesh_loader.cpp:352-356 | after a success every activation of the same kind returns the same API |
| MeshLatch.FirstSuccess | src/mesh_loader.cpp:338-412 | while none has succeeded, a call succeeds if and only if its kind is bundled and its own attempt works, with the API that attempt gave; otherwise it is not bundled or failed |
| MeshLatch.OpenIffNoSuccess | src/mesh_loader.cpp:338-412 | no kind is latched if and only if no activation has succeeded |
| MeshLatch.LoadedCounts | src/mesh_loader.cpp:371-406 | the libraries loaded are the latched one and one for each activation that failed after its load step |
| MeshLatch.TwoLoadedMeansStray | src/mesh_loader.cpp:390-397 | two libraries are loaded only if an earlier activation failed after loading and before the latch was set |
| MeshLatch.TwoKindsCanBeLoaded | src/mesh_loader.cpp:374-397 | a sequence of two activations after which both kinds are loaded |
| MeshLatch.MeshLoader.Activate | src/mesh_loader.cpp:338-412 | the static fields change as the latch function says |
| NodeCache.KeyIsOwnIffUnmistakable | src/mesh_backend.cpp:239-243 | a key belongs to one lookup alone if and only if no option contains the separator and no separator in the name is followed by a part that could be a kind |
| NodeCache.OptionsIdentifiedIffClean | src/mesh_backend.cpp:239-243 | under one name, no other option set has the key if and only if no option contains the separator |
| NodeCache.KeyIdentifies | src/mesh_backend.cpp:239-243 | between option sets without the separator, and whatever the names, two keys agree exactly when name and all options do |
| NodeCache.SeparatorCollides | src/mesh_backend.cpp:239-243 | every option set with a separator in some field shares its key with a different option set |
| NodeCache.HiddenKindCollides | src/mesh_backend.cpp:239-243 | every name with a part that could be a kind behind a separator shares its key with a shorter name, whatever the options |
| NodeCache.HiddenKindExample | src/mesh_backend.cpp:239-243 | two lookups with different names and one key, one of them with clean options |
| NodeCache.SameBackendIffSameIdentity | src/mesh_backend.cpp:245-259 | in every sequence of lookups, one that is unmistakable gets the backend of any other exactly when secret name and options agree; so do any two with clean options |
| NodeCache.OwnBackendIffUnmistakable | src/mesh_backend.cpp:245-259 | a lookup is never given a different lookup's backend if and only if it is unmistakable |
| NodeCache.OneNodePerBackend | src/mesh_backend.cpp:58-89 | over all calls a backend allocates at most one node, and while it is up its API and node are set |
| NodeCache.UpIsStable | src/mesh_backend.cpp:91-109 | once up nothing changes again, so releasing and retaking the lock between EnsureUp and use is safe |
| NodeCache.UpIffBroughtUp | src/mesh_backend.cpp:58-89 | a backend is up if and only if some call reached the shim, came up, and had a node from itself or an earlier call |
| NodeCache.ApiIsFirstUp | src/mesh_backend.cpp:58-89 | its API is the one that the first such call got |
| NodeCache.NodeIffGiven | src/mesh_backend.cpp:63-68 | a backend has a node if and only if some call was given one |
| NodeCache.NodeIsFirstGiven | src/mesh_backend.cpp:63-68 | its node is the first one given, for good |
| NodeCache.BackendCache.FromSecret | src/mesh_backend.cpp:239-259 | finds or makes the backend under the key as the lookup function says |
| NodeCache.MeshBackend.EnsureUp | src/mesh_backend.cpp:58-89 | succeeds exactly when the backend was up, or the activation works, there is an old or a new node, and it comes up; then API and node are those; the fields change as the lifecycle function says |

## Left out

- SshExportInvariant.RunsKeepInv: threads, mutexes and the vector of workers are parts of one state value, so aliasing and weak memory order are not captured; each step is one shared-memory action. One Close runs at a time, as the manager and the destructor call it.
- SshExportShutdown.CloseReturns: bounds the steps of the export's own threads. A new reader of the attributes and a new Close come from outside and are not counted; fair scheduling is not modelled. The two-second deadline for cancelling the forward is at most 200 retries of 10 ms, and Close goes on without a successful cancel, as the code does.
- ImportTeardown.RunsAreOrdered: claims no mutual exclusion of libssh2 calls, since the import takes no session lock. It starts from a connected state; client and listening sockets are not part of it.
- ImportTeardown.CloseReturns: a call into libssh2 that never returns is not modelled.
- TunnelRegistry.NothingLeaks: a handle's own Close is taken not to throw; a throw would end CleanupInactiveTunnels early, which has no handler. Listing, status queries and RemoveTunnel are left out.
- TunnelRegistry.IdsNeverReused: ids are unbounded integers; the 64-bit counter is not taken to wrap.
- ExportHandles.Node.AddExport: handles are unbounded; on Windows the counter has 32 bits.
- ExportHandles.RunsKeepInv: mesh_export is one step, since the backend's mutex keeps it apart from closing the node; closing the node is two kinds of steps, with Unexport calls in between.
- ShimCache.PathsAreCompleteIffSound: takes it that hashes do not collide and that only this protocol writes to the cache. The Unix branch with its private temporary file is left out.
- Pumps.SshExportPump: the waits (select timeouts, 2 ms sleeps) are left out; the dial before the loop and the locks around the calls are in the step model.
- Pumps.ForwardData: the blocking mode of the session is not modelled; whether a write reports EAGAIN is part of the script. The log is tied to ImportLog for a pump that is not stopped and whose channel sends nothing.
- OsHandles.ForwarderLifetime: runs the pumps after the accept loop, one after the other, and each bridge as far as its script goes; their handles are disjoint, so the order does not matter here, and MeshForward has every interleaving. The bytes a bridge copies are not modelled, only how its copies end. The start-up probe is left out.
- OsHandles.Bridge: takes a write to the pump's end of the stream to fail once that end is closed; a first write that the system still buffers only delays the end.
- MeshForward.CloseReturns: bounds the steps of the forwarder's own threads; how long a dial takes, and whether a bridge ever finishes, is up to the outside.
- MeshForward.RunsKeepInv: starts from a forwarder that is up; a Start that fails leaves only the socket it closes itself.
- OsHandles.NewPair: models the Windows pair; the socketpair of other systems has no accept loop.
- JsonBuffer.FetchJson: takes documents to be free of NUL bytes and at most as long as memory allows; sizes do not overflow.
- Tags.ParsedTagsAreTags: strings are sequences of characters; malformed UTF-8 is not modelled.
- NodeCache.OneNodePerBackend: every public call is one step under the backend's mutex; what the options do inside the node is foreign code.
- libssh2, tsnet, NetBird, the JSON encoders, the dynamic loader and the operating system answer from scripts.
- Connecting and authenticating an SSH session, and the failure paths of Start beyond what state they leave for Close.
- Status text, error messages and attribute strings, and their unlocked writes.
- Pragmas, secrets, table functions, extension registration, telemetry and the stand-alone tools: glue with easy properties only.
