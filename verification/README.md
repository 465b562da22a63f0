# Verification model of the print orchestrator

This project models the parts of the print orchestrator that decide something, in Dafny, and proves
properties of them over all inputs and all runs. `dafny verify dfyconfig.toml` checks everything.

| files | what they model |
|---|---|
| PaintTree, PaintGeometry, MeshBuffers, PaintDecoder | the `paint_color` bitstream of painted meshes, its decoder and the surface it subdivides |
| MeshAssembly, PlateScene | assembling a plate: transforms, paint expansion with rollback, groups, bounding box |
| QueueStore, FanOut | the queue's tables and the multi-plate fan-out of one job |
| Dispatch, UnattendedRun, Interleaving, PlateAccounting, ColorRun | the dispatcher, alone and interleaved with the HTTP handlers |
| Filament | filament colours, the runout decision and its application |
| ArtifactNames, PrinterStub, Monitoring, ClosedLoop | artifact names, the virtual printer, the monitor, and the loop they form with the dispatcher |
| CameraStream, CameraRelay | the camera's frame parser and the relay that shares its one connection |
| FtpsSlot, FtpsRetry | the promise chain that serialises FTPS sessions, and the retry around it |
| Medians, Calibration, RunTiming | the robust swap-duration estimate, the loop that measures it, the timer of one run |
| LogTail | the bounded reader of the daily log files |
| Wrappers, Text | shared types, and strings as the string methods see them |

## How the model is built

- Code that changes state is a class or a method with the fields and loops of the source. Its `ensures`
  gives the whole new state as a function of the old one (`Now() == Next(old(Now()), startOk).desk`), and
  the theorems are proved about those functions, so they hold of every run of the methods.
- Calls into foreign code are parameters: `startOk`, `ejectOk` and `connectOk` say whether an awaited
  printer, FTPS or socket call succeeded, `copies` which file copies did, `measure`, `tries` and `parse` give
  what a measurement, an attempt or a JSON line yields. The theorems quantify over all of them.
- Concurrency is a step relation. An asynchronous operation is cut at its awaits, and one step is what runs
  between two awaits: a dispatcher call up to `startPrint`, an eject settling, an HTTP handler, a microtask of
  the promise chain, a socket or timer event. Runs are arbitrary sequences of steps; a step that is not
  possible in a state leaves it unchanged.
- SQL statements are modelled by what they do to the rows. A CHECK or foreign-key violation is an explicit
  outcome with the tables unchanged.
- Coordinates and durations are reals. Integers are unbounded except where the source truncates
  (`limit | 0` in the log reader).

## Where the code differs from its own documentation

The model follows the code in each case.

- The comment on the plate fan-out promises that a failed copy rolls back every clone of the request. The
  clone whose own copy threw is not yet recorded and stays, in status `processing`
  (`FanOut.FailedFanOut`); no queued job appears, as promised.
- The camera relay's interface says that the latest frame is null while the upstream is down. A close of the
  current socket after a frame leaves the frame behind (`CameraRelay.StaleRun` is such a run). In every run
  there is a latest frame exactly when one was shown since the last teardown, so the promise holds exactly
  while the upstream is up or no frame was shown since then (`CameraRelay.LatestExactly`,
  `CameraRelay.StaleExactly`).
- The relay's reconnect delay is described as bounded by its maximum. A configured base above the maximum is
  used once as it is (`CameraRelay.FirstDelay`); min(base·2^n, max) gives every delay of every run exactly when
  base ≤ max (`CameraRelay.CappedExactly`).
- The dispatcher's comment on a failed start says that nothing is printing then. The project_file can be on its
  way, though, and the printer may take it after the start was given up, or have taken it before. The print
  goes on while its job is back in the queue, and its end, although reported, can be attributed to nobody
  (`ClosedLoop.LateStartLosesEnd` is such a run). A job is tracked through every continuation exactly when the
  printer took no given-up start of it (`ClosedLoop.TrackedExactly`).

## Model

| member | source | states |
|---|---|---|
| PaintTree.RoundTrip | src/injection/paint-color.ts:184-216 | parsing the encoding of any paint tree, followed by anything, returns that tree and leaves the rest untouched |
| PaintTree.Sound | src/injection/paint-color.ts:166-216 | every nibble string parses to a well-formed tree; without an overrun exactly that tree's encoding was consumed, after one nothing is left |
| PaintTree.AcceptsExactlyEncodings | src/injection/paint-color.ts:218-222 | the accepted strings are exactly the encodings of trees, and the parsed tree is the only one with that encoding |
| PaintTree.PrefixFree | src/injection/paint-color.ts:184-216 | no encoding is a proper prefix of another in consumption order |
| PaintTree.LeavesBounded | src/injection/paint-color.ts:184-216 | n consumed nibbles give at most 3n + 1 leaves, also in strings that overrun |
| PaintTree.LeafStatesSummary | src/injection/paint-color.ts:200-215 | the leaf count, first state and largest state that the decoder keeps are those of the leaf list in depth-first order |
| PaintGeometry.ChildrenShareArea | src/injection/paint-color.ts:98-134 | for every split and special side each child has the stated positive share of its parent's vector area, and the shares add up to it |
| PaintGeometry.AreaConserved | src/injection/paint-color.ts:184-216 | for every tree, triangle and cap the emitted triangles have the source triangle's total vector area |
| PaintGeometry.WindingKept | src/injection/paint-color.ts:98-216 | every emitted triangle's vector area is a positive multiple of the source's: none is flipped |
| PaintGeometry.FacetsBounded | src/injection/paint-color.ts:206-215 | between one and `leaves` triangles are emitted, and at most 4^(cap - depth) |
| PaintGeometry.UncappedPaintsLeaves | src/injection/paint-color.ts:184-216 | when the cap is no lower than the tree, the emitted extruders are the leaf states in order |
| PaintGeometry.FacetsInside | src/injection/paint-color.ts:98-134 | subdivision adds no vertex outside a box that holds the source corners |
| PaintDecoder.HexToNibbles | src/injection/paint-color.ts:73-86 | the reversed digits' values, or nothing when some character is not a hex digit |
| PaintDecoder.Decoder.Next | src/injection/paint-color.ts:168-174 | takes the next nibble, or returns 0 and records the overrun without moving |
| PaintDecoder.Decoder.ExtendedState | src/injection/paint-color.ts:189-196 | the run of fifteens amounts to the extended state of the grammar |
| PaintDecoder.Decoder.Node | src/injection/paint-color.ts:184-216 | cursor, overrun flag, statistics and buffers end as the parsed tree and its painting say, in every position, and the recursion terminates |
| PaintDecoder.Decoder.NodeChildren | src/injection/paint-color.ts:205-215 | the loop from the highest child down walks exactly the children of the grammar |
| PaintDecoder.DecodePaintColor | src/injection/paint-color.ts:146-224 | the statistics and the emitted triangles are those of the specification, for every string and cap |
| PaintDecoder.OkExactlyEncodings | src/injection/paint-color.ts:220-222 | `ok` holds exactly when the hex string is the encoding of some tree, and that tree is unique |
| PaintDecoder.StatsBounds | src/injection/paint-color.ts:56-69 | emitted ≤ leaves ≤ 3n + 1 and emitted ≤ 4^cap; `ok`, `leaves` and `maxState` do not depend on the cap |
| PaintDecoder.SurfaceConserved | src/injection/paint-color.ts:146-224 | any non-empty hex string, malformed or not, repaints its triangle with the same vector area, no flip, and nothing outside its box |
| PaintDecoder.DecodeEmitsLeaves | src/injection/paint-color.ts:146-224 | decoding the encoding of a tree emits its leaves in order in their colours, with exact statistics |
| MeshBuffers.MeshBuffer.Emit | src/injection/threemf-mesh.ts:346-352 | a triangle adds nine coordinates, three fresh indices and one extruder |
| MeshBuffers.AddFacetsExtends | src/injection/threemf-mesh.ts:346-352 | emitting only appends: truncating by the added lengths gives back the old buffers |
| MeshAssembly.PushMesh | src/injection/threemf-mesh.ts:304-383 | the buffers after a mesh, the count of added triangles, and the whole decode telemetry |
| MeshAssembly.TelemetryAdds | src/injection/threemf-mesh.ts:353-363 | the clean strings are the triangles that decode, every string is clean or failed, emitted never outgrows leaves, and unpainted triangles count nothing |
| MeshAssembly.PushPainted | src/injection/threemf-mesh.ts:340-375 | a painted triangle is expanded when its string decodes, and otherwise undone to one flat triangle |
| MeshAssembly.Undo | src/injection/threemf-mesh.ts:364-370 | truncating by the counted triangles restores the three buffers exactly |
| MeshAssembly.RollbackExact | src/injection/threemf-mesh.ts:339-380 | a mesh with any number of malformed paint strings yields the buffers of the mesh without those attributes |
| MeshAssembly.PushMeshWellFormed | src/injection/threemf-mesh.ts:304-383 | indices stay in range, coordinates and indices come in threes, and a painted plate has one extruder per triangle |
| MeshAssembly.PushMeshInside | src/injection/threemf-mesh.ts:304-383 | painting changes no box that holds the vertices |
| MeshAssembly.PushMeshGrows | src/injection/threemf-mesh.ts:304-383 | a mesh contributes triangles when painted exactly when it does unpainted |
| MeshAssembly.NoCleanPaintNoChange | src/injection/threemf-mesh.ts:339-380 | when no paint string decodes, positions and indices are those of the unpainted mesh |
| PlateScene.PushObject | src/injection/threemf-mesh.ts:418-435 | inline mesh and components are pushed in order under their composed transforms |
| PlateScene.PushComponents | src/injection/threemf-mesh.ts:424-434 | the components in order, each under its own and then the item's transform; missing parts are skipped |
| PlateScene.AssembleScene | src/injection/threemf-mesh.ts:403-442 | the whole scene: target selection, skipped objects, groups, and null without a build or geometry |
| PlateScene.SceneSound | src/injection/threemf-mesh.ts:414-441 | after any sequence of objects the buffers are well formed and the groups tile the index buffer in multiples of three |
| PlateScene.PaintKeepsScene | src/injection/threemf-mesh.ts:403-442 | painted and unpainted, a plate has groups for the same objects and the same enclosing boxes |
| PlateScene.ComputeBbox | src/injection/threemf-mesh.ts:445-456 | the running minima and maxima are attained bounds on each axis, and infinite only for an empty buffer |
| PlateScene.PaintKeepsBbox | src/injection/threemf-mesh.ts:403-456 | the bounding box of a painted plate is that of the same plate unpainted |
| QueueStore.FindUpdate | src/db/repo.ts:75-77 | reading a row back after an update gives the patched row, and every other row as it was |
| QueueStore.SortedUnique | src/db/repo.ts:108-115 | (position, id) order determines the list: two listings of the same rows are equal |
| QueueStore.ListByStatusIsFilter | src/db/repo.ts:108-115 | `listByStatus` is `listJobs` restricted to that status |
| QueueStore.CreateAppends | src/db/repo.ts:56-74 | a new job goes to the end of the queue order |
| QueueStore.CloneAppends | src/db/repo.ts:84-107 | a clone goes to the end, in `processing`, with its source's plan and project and its own plate |
| QueueStore.DeleteRemoves | src/db/repo.ts:170-172 | deleting removes one id from the order and moves nothing else |
| QueueStore.PatchKeepsOrder | src/db/repo.ts:116-152 | an update that sets no position leaves the order alone |
| QueueStore.ReorderSetsOrder | src/db/repo.ts:156-161 | reordering with every job listed once makes the order exactly that list |
| QueueStore.Repo.CreateJob | src/db/repo.ts:56-74 | returns the fresh id and appends the row, or fails on a missing project without a change |
| QueueStore.Repo.CloneJob | src/db/repo.ts:84-107 | appends the copy with the plate asked for, or the source's own without one; a missing source or a plate that the CHECK refuses throws without a change |
| QueueStore.Repo.UpdateJob | src/db/repo.ts:116-143 | one row patched by status, attempts, substitution or plan, order kept |
| QueueStore.Repo.SetProject | src/db/repo.ts:164-168 | the row joins the project, or the foreign key refuses one that does not exist |
| QueueStore.Repo.SetSelectedPlate | src/db/repo.ts:148-152 | the row takes the plate, or the CHECK refuses a text that is not a plate's name |
| QueueStore.Repo.ReorderJobs | src/db/repo.ts:156-161 | positions 1..N in the given order, one update after the other |
| QueueStore.Repo.DeleteJob | src/db/repo.ts:170-172 | the row is gone, unless a pending action still names it |
| QueueStore.Repo.SetStocker | src/db/repo.ts:175-182 | the stocker row is set, or the CHECK refuses |
| QueueStore.Repo.DecrementStocker | src/db/repo.ts:187-189 | one plate fewer, or the CHECK fails at zero with no change |
| QueueStore.Repo.RefillStocker | src/db/repo.ts:190-192 | the stock is the capacity |
| QueueStore.Repo.CreatePendingAction | src/db/repo.ts:211-228 | appends an unresolved action, or a foreign key refuses a missing job or project |
| QueueStore.Repo.ResolvePendingAction | src/db/repo.ts:246-250 | resolves that action and no other |
| FanOut.CreateClones | src/api/write-routes.ts:234-243 | the loop creates the clones in order and stops at the first copy that throws, which leaves one unrecorded clone; without the source row the first clone throws |
| FanOut.Rollback | src/api/write-routes.ts:244-251 | deletes exactly the recorded clones |
| FanOut.EnqueueClones | src/api/write-routes.ts:259-261 | queues the clones in creation order and changes no other row |
| FanOut.ConfirmPlates | src/api/write-routes.ts:225-262 | the tables after the handler, for a success and for a failure at any copy, whatever the job's status is by then and also when the job is gone |
| FanOut.FanOutExact | src/api/write-routes.ts:228-262 | a successful fan-out of K plates, repeats allowed, gives K queued jobs whose order and plates are the requested sequence, with equal plan and project, after everything queued before |
| FanOut.FailedFanOut | src/api/write-routes.ts:244-258 | a failed fan-out adds no queued job and leaves exactly one stray row, so the rollback is never exact |
| Dispatch.EligibleFromQueued | src/core/dispatcher.ts:86-92 | scanning the queued list past paused projects visits the eligible jobs in queue order |
| Dispatch.FirstKept | src/core/dispatcher.ts:86-91 | the job found by the scan is the head of the eligible list |
| Dispatch.Dispatcher.EnsureStockerRefillPending | src/core/dispatcher.ts:217-231 | at most one unresolved refill request is raised |
| Dispatch.Dispatcher.SwapPlate | src/core/dispatcher.ts:50-63 | one plate is taken, with a warning at or below the low-water mark, or the CHECK throws |
| Dispatch.Dispatcher.Enqueue | src/core/dispatcher.ts:66-68 | the job is queued |
| Dispatch.Dispatcher.DispatchNext | src/core/dispatcher.ts:71-93 | the first eligible job is started, or nothing is and the reason says why |
| Dispatch.Dispatcher.StartJob | src/core/dispatcher.ts:95-109 | the job is printing after a start, and queued again after a failed one, which is rethrown |
| Dispatch.Dispatcher.ApplyColorConsistency | src/core/dispatcher.ts:135-167 | a strict project gets a decision request, a propagating one the substitution on its queued jobs |
| Dispatch.Dispatcher.OnFinished | src/core/dispatcher.ts:113-131 | success, swap, notification, colour handling, next start, and a CHECK failure that ends the call early |
| Dispatch.Dispatcher.OnFailed | src/core/dispatcher.ts:170-183 | failed with its error and one more attempt; after the eject a swap and a retry decision; nothing starts |
| Dispatch.Dispatcher.Abort | src/core/dispatcher.ts:189-198 | only a printing job is aborted; swap, notification and next start follow the eject |
| Dispatch.Dispatcher.Retry | src/core/dispatcher.ts:201-215 | re-queued unless unknown or over the limit, which raises a check instead |
| UnattendedRun.UnattendedRunExact | src/core/dispatcher.ts:50-131 | from an idle printer with k eligible jobs and r plates, one dispatch and the finishes after it print exactly the first min(k, r) jobs in order, once each, leave r - min(k, r) plates, and raise one refill request iff r ≤ k |
| UnattendedRun.MarkAllRows | src/core/dispatcher.ts:113-116 | row by row: the printed jobs are successful and no other row has changed |
| Interleaving.StepKeepsOne | src/core/dispatcher.ts:71-215 | every piece of every call or handler keeps at most one job printing |
| Interleaving.AtMostOnePrinting | src/core/dispatcher.ts:71-215 | in every interleaving, failed starts and throwing swaps included, at most one job is printing |
| Interleaving.StepConsistent | src/db/migrations.ts:25-87 | every piece keeps the schema's keys, counters, CHECKs on stocker and plate, and foreign keys: pending actions name existing jobs and projects |
| Interleaving.StartsRightly | src/core/dispatcher.ts:71-98 | a start happens only with a plate in stock, no queue block, and only paused projects' jobs queued before it |
| Interleaving.EveryStartIsRight | src/core/dispatcher.ts:71-215 | the same for every start of every interleaving |
| PlateAccounting.HandlerKeeps | src/api/write-routes.ts:129-180 | handlers start nothing, and only the two stocker handlers touch the stock |
| PlateAccounting.OpBalanced | src/core/dispatcher.ts:50-198 | each completed call keeps the books balanced |
| PlateAccounting.PlatesAccounted | src/core/dispatcher.ts:50-198 | in serial runs in which nobody sets the stock to 0 during a print, the CHECK never fires, a printing job implies a plate in stock, and the stock is the level last set minus the finishes, failures and aborts since |
| PlateAccounting.ZeroUnderPrintUnderflows | src/core/dispatcher.ts:113-117 | conversely, a stock set to 0 under a running print makes that print's finish trip the CHECK, and nothing starts |
| ColorRun.StrictFinishAsks | src/core/dispatcher.ts:133-159 | when a plate with a substituted colour finishes in a strict project, a decision is requested and the job that starts next is not of that project |
| ColorRun.StrictProjectPaused | src/core/dispatcher.ts:86-91 | until that decision is resolved, in every interleaving no plate of the project starts, and other projects start in their order |
| ColorRun.PropagateFinishMarks | src/core/dispatcher.ts:160-166 | in a propagating project every plate queued at that moment carries the same substitution afterwards |
| ColorRun.FinishAnnounces | src/core/dispatcher.ts:117-128 | a finish of a job with a substitution announces it, unless the CHECK throws first |
| ColorRun.SubstitutionAnnounced | src/core/dispatcher.ts:113-167 | a substitution stays on its job through every interleaving that does not delete the job, and a later finish announces it |
| Filament.NormalizeIdempotent | src/core/color.ts:13-21 | normalising a colour twice is normalising it once |
| Filament.ShortNotation | src/core/color.ts:13-21 | a three-digit colour is the six-digit one with doubled digits |
| Filament.NotationDoesNotMatter | src/core/color.ts:13-25 | six-digit colours are the same exactly when their digits agree, whatever the case, the hash and the alpha |
| Filament.SwitchExactly | src/core/runout.ts:36-65 | a runout switches exactly when the policy allows it and an eligible tray exists; the target is the first such tray, or the fullest and among equals the earliest when colours may differ; a substitution is recorded exactly when the normalised colours differ |
| Filament.FilamentService.OnRunout | src/core/filament-service.ts:33-79 | tables and notifications after a runout, with a resume that fails and a job that is missing |
| ArtifactNames.DecimalInjective | src/core/artifact.ts:11-14 | different ids are written differently |
| ArtifactNames.AttributionIsInjective | src/core/artifact.ts:11-14 | the artifact name of job i contains the prefix of job j exactly when i = j |
| ArtifactNames.OtherArtifactsUnattributed | src/core/artifact.ts:16-19 | the eject and dry-rehearsal artifacts contain no job's prefix |
| PrinterStub.VirtualPrinter.Publish | src/stub/virtual-printer.ts:323-326 | one report of the current state, or none while suppressed |
| PrinterStub.VirtualPrinter.Transition | src/stub/virtual-printer.ts:318-321 | the new state, reported unless silent or suppressed |
| PrinterStub.VirtualPrinter.HandleFinish | src/stub/virtual-printer.ts:304-316 | a finish is reported, or withheld once when that fault is armed |
| PrinterStub.VirtualPrinter.Fails | src/stub/virtual-printer.ts:236-242 | a failure is reported twice |
| PrinterStub.VirtualPrinter.Obey | src/stub/virtual-printer.ts:186-300 | state and emitted reports for every command |
| PrinterStub.VirtualPrinter.ReceiveProjectFile | src/stub/virtual-printer.ts:146-184 | a busy printer or a wrong mapping refuses without a change; otherwise the job starts, or fails at once when that fault is armed |
| PrinterStub.PollSurfacesWithheldEnd | src/stub/virtual-printer.ts:295-300 | whatever happens short of a reset or a new print, a later full poll still reports a final state of that very job |
| Monitoring.KeyInjective | src/orchestrator/monitor.ts:53-55 | two reports have the same key exactly when state and subtask agree |
| Monitoring.OwnReport | src/orchestrator/monitor.ts:73-76 | a report of job j's artifact is attributed to j exactly when j is printing, and to nobody otherwise |
| Monitoring.ForeignReport | src/orchestrator/monitor.ts:66-76 | a report of the eject, of the dry rehearsal or of no job is attributed to nobody |
| Monitoring.Monitor.OnStatus | src/orchestrator/monitor.ts:35-50 | a status is appended to the chain only between start and stop |
| Monitoring.Monitor.HandleNext | src/orchestrator/monitor.ts:52-64 | repeats are ignored; a final report of a printing job runs onFinished or onFailed for it; nothing else changes |
| ClosedLoop.NoticedOwnJob | src/orchestrator/monitor.ts:52-76 | an event is only for the printing job the report names, and a final report without an event is of a job that already had its one, unless the printer took a given-up start of it |
| ClosedLoop.StepKeeps | src/orchestrator/monitor.ts:46-76 | every move of printer, network, monitor or dispatcher keeps the loop's invariant |
| ClosedLoop.ExactlyOnce | src/orchestrator/monitor.ts:46-76 | under every schedule a job of which the printer took no given-up start is accepted at most once, printing until its call and settled afterwards, triggers at most one of onFinished and onFailed, and exactly one once a final state of it has been reported and handled |
| ClosedLoop.TrackedExactly | src/core/dispatcher.ts:95-109 | for every schedule: the job is tracked like that at every point and in every continuation that takes no given-up start of it, exactly when the schedule took none |
| ClosedLoop.UnsureExactly | src/core/dispatcher.ts:98-107 | the printer has a given-up start of a job exactly after a timeout of a start it had taken, or after taking the project_file of a failed one |
| ClosedLoop.Drain | src/orchestrator/monitor.ts:46-50 | from every reachable state, settling the pending start and eject and handling reports works all reports off |
| ClosedLoop.EveryEndIsCalled | src/orchestrator/monitor.ts:46-64 | once a final state of such a job has been reported, some settling moves lead to exactly one call for it |
| ClosedLoop.EndBegins | src/stub/virtual-printer.ts:212-242 | a command that ends a print reports the end, or withholds it with the printer in its final state |
| ClosedLoop.EndIsNotLost | src/stub/virtual-printer.ts:290-316 | after a print that ended, reported or withheld, and a full poll before the printer moves on, the reports can be worked off, and whenever they are, its job has exactly one call |
| ClosedLoop.LateStartLosesEnd | src/core/dispatcher.ts:98-107 | whatever the queue, a start that fails while its project_file is on the way to an idle printer leads to a reported and handled end without any call |
| ClosedLoop.CallsOwnJob | src/orchestrator/monitor.ts:57-63 | each call is for the job that the handled report names, and of the kind it shows |
| CameraStream.CameraFrameParser.Push | src/orchestrator/camera.ts:34-51 | the first JPEG frame completed by the bytes at hand and the state behind it; the loop ends even on empty payloads |
| CameraStream.CameraFrameParser.Drain | src/orchestrator/camera-relay.ts:166-173 | one push and empty pushes yield all frames of the one-shot parse |
| CameraStream.FramesSplit | src/orchestrator/camera.ts:34-51 | parsing a stream is parsing a first part and then the rest from the state it leaves |
| CameraStream.ChunkingDoesNotMatter | src/orchestrator/camera-relay.ts:166-173 | however a stream is cut, the drained frames and the final state are those of the one-shot parse |
| CameraStream.EncodeRoundTrip | src/orchestrator/camera.ts:30-51 | parsing the encoding of any packets gives exactly the JPEG payloads in order |
| CameraStream.StreamDelivers | src/orchestrator/camera-relay.ts:166-173 | any packets, cut anyhow, arrive as their images in order with nothing left over |
| CameraRelay.HandleKeeps | src/orchestrator/camera-relay.ts:71-235 | every event keeps the relay's invariant |
| CameraRelay.RelaySafe | src/orchestrator/camera-relay.ts:71-235 | in every reachable state: at most one live socket; a listener implies a socket or a scheduled reconnect; an unwatched socket implies the linger timer; reconnect delays double from the base up to the maximum; the frames shown are the parse of the bytes received |
| CameraRelay.FirstDelay | src/orchestrator/camera-relay.ts:203-212 | a first subscription whose connect throws waits the base itself, capped or not |
| CameraRelay.CappedExactly | src/orchestrator/camera-relay.ts:203-212 | every delay of every run is min(base·2^n, max) exactly when the base does not exceed the maximum |
| CameraRelay.LatestExactly | src/orchestrator/camera-relay.ts:180-235 | in every run there is a latest frame exactly when one was shown since the last teardown; the frame is null while the upstream is down exactly in the runs without such a frame |
| CameraRelay.StaleExactly | src/orchestrator/camera-relay.ts:175-235 | the one event that leaves a frame without an upstream is the close of the current socket after a frame; only a new socket or the teardown ends that state |
| CameraRelay.StaleRun | src/orchestrator/camera-relay.ts:71-201 | subscribe, one image, close: the upstream is down and the image is still there |
| CameraRelay.CameraRelay.DoSubscribe | src/orchestrator/camera-relay.ts:71-96 | adds the listener, cancels the linger and makes sure that an upstream is coming |
| CameraRelay.CameraRelay.DoUnsubscribe | src/orchestrator/camera-relay.ts:90-95 | removes the listener once, and arms the linger after the last one |
| CameraRelay.CameraRelay.DoOpenUpstream | src/orchestrator/camera-relay.ts:146-178 | a new socket with a fresh parser, or the failure path when connecting throws |
| CameraRelay.CameraRelay.OnData | src/orchestrator/camera-relay.ts:166-173 | drains the chunk and handles its frames |
| CameraRelay.CameraRelay.OnFrame | src/orchestrator/camera-relay.ts:180-186 | a frame marks the stream healthy, resets the backoff and is shown |
| CameraRelay.CameraRelay.OnClose | src/orchestrator/camera-relay.ts:175-177 | only the current socket's close is acted on |
| CameraRelay.CameraRelay.OnUpstreamGone | src/orchestrator/camera-relay.ts:196-201 | a watched relay schedules a reconnect, an idle one stays down |
| CameraRelay.CameraRelay.DoScheduleReconnect | src/orchestrator/camera-relay.ts:203-212 | one timer with the current delay, and the next delay doubled up to the maximum |
| CameraRelay.CameraRelay.OnBackoff | src/orchestrator/camera-relay.ts:207-210 | reconnects only while somebody is listening |
| CameraRelay.CameraRelay.OnLinger | src/orchestrator/camera-relay.ts:214-222 | tears down only when nobody has come back |
| CameraRelay.CameraRelay.DoTeardown | src/orchestrator/camera-relay.ts:224-235 | timer, frame and socket are dropped and the backoff is reset |
| FtpsSlot.MutualExclusion | src/orchestrator/ftps-session.ts:34-46 | in every interleaving of callers at most one body runs, bodies start in call order, and every call before a started one has settled |
| FtpsSlot.ResumeIsNext | src/orchestrator/ftps-session.ts:39-43 | a call that may start is the next in line |
| FtpsSlot.StartsExactly | src/orchestrator/ftps-session.ts:41 | a waiting call can start exactly when every earlier call is done and its link of the chain has settled |
| FtpsSlot.ResultIsOwn | src/orchestrator/ftps-session.ts:40-45 | what a caller is given is what its own body settled with |
| FtpsSlot.OthersDoNotMatter | src/orchestrator/ftps-session.ts:38-46 | whether and how the other bodies fail changes neither the order of the starts nor a caller's result |
| FtpsSlot.NobodyBlocks | src/orchestrator/ftps-session.ts:41-44 | while some call has work left, the first such call can take its next step |
| FtpsSlot.EveryCallSettles | src/orchestrator/ftps-session.ts:38-46 | without new calls every schedule is finite, can go on until its step count is used up, and has settled every call exactly then |
| FtpsSlot.SessionQueue.RunSerialized | src/orchestrator/ftps-session.ts:38-46 | the new call waits for the old tail and becomes the tail |
| FtpsSlot.SessionQueue.Continue | src/orchestrator/ftps-session.ts:41-42 | the body starts exactly when every earlier call has settled |
| FtpsSlot.SessionQueue.Settle | src/orchestrator/ftps-session.ts:42-45 | the caller's promise settles with the body's outcome |
| FtpsSlot.SessionQueue.SettleGuard | src/orchestrator/ftps-session.ts:44 | the chain's link is fulfilled whatever the body did |
| FtpsRetry.WithFtpsRetry | src/orchestrator/ftps-session.ts:140-176 | every attempt before the last was a transient failure without two refusals in a row; the last one decides between the value, its error and the wedged report |
| FtpsRetry.AnswerIsUnique | src/orchestrator/ftps-session.ts:148-174 | the answer and the number of attempts are determined by what the attempts do |
| FtpsRetry.AnswerExactly | src/orchestrator/ftps-session.ts:148-164 | success and the wedged report are each given exactly when the first incurable attempt calls for them |
| FtpsRetry.MoreAttempts | src/orchestrator/ftps-session.ts:144-164 | a larger limit never makes fewer attempts, and changes the answer only when all the allowed ones failed curably |
| Medians.MajorityHolds | src/core/calibration.ts:21-26 | a median stays in any range that holds more than half of the values |
| Medians.OrderDoesNotMatter | src/core/calibration.ts:21-26 | the median depends only on which values were measured how often |
| Medians.MedianMirrors | src/core/calibration.ts:24-25 | reflecting all values reflects the median, for odd and even counts |
| Calibration.KeptIsNeverEmpty | src/core/calibration.ts:38-43 | with a factor of at least 1 the outlier filter never removes every sample |
| Calibration.BreakdownBound | src/core/calibration.ts:34-43 | when more than half of the positive samples lie in [lo, hi], the estimate lies within madK·(hi - lo) of it, whatever the others are and for every factor |
| Calibration.HalfIsNotEnough | src/core/calibration.ts:34-43 | with exactly half of the samples in the range the bound can fail |
| Calibration.CalibrationBound | src/core/calibration.ts:34-45 | the same for the stored value, plus one half for rounding |
| Calibration.UsableExactly | src/core/calibration.ts:35-44 | there is a value exactly when some sample is positive |
| Calibration.WholeMillisecondsAreKept | src/core/calibration.ts:44 | samples of whole milliseconds never give the value 0 |
| Calibration.SampleOrderDoesNotMatter | src/core/calibration.ts:34-45 | any order of the same samples calibrates to the same value |
| Calibration.CalibrationRunner.Run | src/core/calibration.ts:120-134 | the samples of the paired runs, their aggregate, and a setting that changes only to a computed value |
| Calibration.SettingReplacedExactly | src/core/calibration.ts:120-133 | the setting is replaced exactly when in some iteration both runs succeeded and the one with the swap took longer |
| RunTiming.RunTimer.Observe | src/core/calibration.ts:59-67 | the three fields are those of the whole history of reports |
| RunTiming.RunTimer.DurationMs | src/core/calibration.ts:70-73 | reports the duration of the history |
| RunTiming.DurationExactly | src/core/calibration.ts:59-73 | a duration is reported exactly for a run that went from its first RUNNING to the next FINISH and never failed since it started, and it is the time between the two |
| LogTail.SplitExact | src/obs/log-reader.ts:98 | splitting into lines loses nothing and leaves no newline inside a line |
| LogTail.ReadTailFile | src/obs/log-reader.ts:77-114 | the records of the window's whole lines in file order; a missing or empty file has none |
| LogTail.TailIsSuffix | src/obs/log-reader.ts:85-96 | for every file and window the tail is the end of the file's records, and past the start of the window at most one line is dropped |
| LogTail.TailCompleteExactly | src/obs/log-reader.ts:85-96 | the tail is complete exactly when the dropped part holds no record, as when the file fits |
| LogTail.PushNewestFirst | src/obs/log-reader.ts:44-46 | the inner loop appends the records newest first up to the limit |
| LogTail.ReadLogTail | src/obs/log-reader.ts:32-49 | stopping early at the limit gives the same records as cutting the full newest-first list of the first files |
| LogTail.AgreesWithWholeLog | src/obs/log-reader.ts:32-49 | when every file fits and none is left out, the answer is the newest records of the whole log, as many as asked for when that is a non-negative 32-bit number |
| LogTail.NoGapUpToFirstCut | src/obs/log-reader.ts:32-49 | up to and including the first file that was cut, the answer has no gap |

## Left out

- XML and zip parsing of 3MF parts: vertices, triangles and components are given as parsed records; an attribute that does not parse is an absent one.
- MQTT, FTPS, TLS, SQLite, HTTP and the file system themselves: they appear as the outcomes described above.
- PlateScene.AssembleScene: says of the telemetry only that it stays consistent; the sums are stated mesh by mesh.
- Filament.NormalizeIdempotent: whitespace and letter case are those of ASCII.
- NULL positions in the queue: every insert of the repository sets one.
- PrinterStub.VirtualPrinter.Fails: the HMS code of a failure is not modelled; nothing in the loop depends on it but the text of an error.
- PrinterStub.VirtualPrinter.Obey: progress, layers, temperatures, trays, HMS codes and speed of the reports are not modelled.
- PrinterStub.VirtualPrinter.ReceiveProjectFile: of the mapping only its length is modelled, and the sequence id is not.
- PrinterStub.PollSurfacesWithheldEnd: holds until the printer takes a new job or is reset; a poll after that cannot report the old job.
- ClosedLoop.ExactlyOnce: says nothing of a job of which the printer took a given-up start; no report is lost between printer and monitor, and no human steps in while the loop runs.
- PlateAccounting.PlatesAccounted: covers calls that complete before the next one; when an abort overlaps a failure report of the same job, two plates can be counted for one.
- FanOut.ConfirmPlates: runs as one piece. Each of its enqueues is followed by an await at which another handler can run; that safety survives this is shown by the enqueue and clone steps of `Interleaving`, but the final order is stated for a handler that is not interrupted.
- CameraRelay.CameraRelay.OnFrame: the delivery to each listener, one of which may throw, is not modelled; `shown` is what all of them get.
- CameraRelay.CameraRelay.DoSubscribe: the replay of the last frame to the newcomer and `snapshot()` are not modelled.
- The camera's authentication packet.
- `openAndRun`: the TLS session, its login and its QUIT; a session is the body that the slot runs.
- FtpsRetry.WithFtpsRetry: attempt counts are whole numbers, and the waits between attempts are not modelled.
- Calibration.CalibrationRunner.Run: the setting is a number rather than its text, so converting it back and forth is not modelled.
- The file names of the log reader: files are given newest first; matching and sorting the dated names is left out, and so is the decoding inside a line.
- LogTail.NoGapUpToFirstCut: says nothing about older files after one that was cut, where a gap is possible.
- Notifications' texts, escalation, ETA, SSE, webhooks, authentication, diagnostics and pages.
