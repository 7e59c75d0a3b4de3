# Proofs about the display, audio, buffer and camera HALs

This project models the five parts of the vendor HAL tree that hold real invariants, and proves what
callers rely on:

- the primary-display composition pipeline of the hardware composer: surfaces, retire and release
  fences, back-pressure, blits and checkpoints, layer types, clipping;
- the tunnelled audio output: the debounced pause and the de-framing of av-sync packets;
- gralloc buffers: the cross-process frame lock, memory-block lock counts, the YV12 layout;
- the camera: heap resizing with preview restarts, mode choice, the crop copy;
- microphone capture: the stereo fold and the period buffer.

Protocols with several threads or processes are transition systems whose steps are the critical
sections and foreign calls of the source; a theorem about a run holds for every interleaving.
Sequential code that updates objects or arrays is written as classes and methods with loops, proved
against specification functions. Calls into the graphics, audio and memory libraries become step
labels or parameters that carry their answers, so failures are part of every run.

`dafny verify dfyconfig.toml` checks everything.

## How it fits together

| file | contents |
|---|---|
| `Common.dfy`, `RowCopy.dfy` | shared datatypes and lemmas; the row-by-row picture copy |
| `DisplayRing.dfy` | the three-slot surface ring as a value, and the array that implements it |
| `Pipeline.dfy` | set, compose and recycle steps |
| `SurfaceInvariant.dfy`, `Timelines.dfy` | what each step keeps |
| `PipelineTheorems.dfy` | what holds of every run, and where it stops holding |
| `Losses.dfy` | what surfaces are lost, the ring as a queue, and that the composer is never stuck |
| `Toggles.dfy` | which display surfaces mode toggles have destroyed |
| `RetireLedger.dfy` | which frame each step of the retire timeline was taken for |
| `Handshake.dfy` | the binary events between set calls and the composer |
| `BlitFences.dfy` | one frame's blits, checkpoints and release fences |
| `Classification.dfy`, `Clipping.dfy` | layer types; blit rectangles |
| `Debounce.dfy`, `AvSync.dfy` | tunnelled audio output |
| `Capture.dfy` | microphone capture |
| `FrameLock.dfy`, `PlaneLocks.dfy`, `Yv12Layout.dfy` | gralloc |
| `CameraHeaps.dfy`, `ModeChoice.dfy` | camera |

## What the proofs found

- The retire fence of a frame still on display can signal early, in two ways: a later frame is dropped
  (`RetireBeforeRecycle`), or its surface comes back first (`RetireByOvertaking`). It has signalled
  exactly when as many later frames have taken their step as frames up to it have not
  (`RetireSignalledIff`); with oldest-first recycling only a drop can do it (`OldestFirstEarlyIff`).
- A mode toggle destroys every display buffer before it does anything that can fail. After any failed
  toggle the ring holds only destroyed surfaces and the composer goes on to use them
  (`HeldIsDestroyedIff`, `DestroyedButCurrent`); the next toggle may destroy some of them again
  (`DestroysTwiceIff`). Which of the old handles are still listed as display buffers depends on the
  buffer at which toggles failed (`StaleAfterFailedToggle`, `HeldIsCurrentIff`).
- A checkpoint timeout lets a release fence signal over a live blit (`TimeoutReleasesEarly`). The
  event that comes late is never cleared: it ends the next wait too early, and so on in later frames
  (`LatchedEventStays`, `LatchedEventReleasesEarly`). `ComposeFrame` says exactly which fences are
  early for given answers; until the first failure none is (`SafeUntilFailure`), and where events come
  in time only those of blits left uncovered (`OwnEventsUncovered`).
- A re-armed pause window can be almost a millisecond short (`WindowFallsShort`, `RearmedWindow`, and `FullWindowIff` for runs).
- A pause that a joining stop overtakes is lost: decoder and STC run on (`PauseLost`; `LastRequestWins`
  has the exact condition).
- A zero-length av-sync packet is consumed but its header is not counted (`CountsAllIff`, `EmptyPacketUncounted`).
- A write that ends inside an av-sync header leaves the header to the caller, unless it ends inside the
  marker: those one to three bytes go out as payload (`CutHeaderLeftAlone`, `HeaderCutIff`).
- When the STC cannot be set, the decoder is put back to the opposite of what was asked, which is not
  where a repeated request started (`DriveAgreesIff`).
- A set call skipped with the display off counts against the throttle for ever: every later call waits
  for the composer, unless it signalled a video frame inline (`ReturnsAtOnceIff`).
- A device with three or more channels is not folded to its first channel (`KeptIsFirstChannelIff`).
- A release of the frame lock that makes its exchange always succeeds, so the assertion after it, which
  demands a non-zero result, is of the wrong sense (`ReleaseFindsOne`). A release that cannot map the
  shared block makes none: the lock is then lost for ever (`StuckIffUnmapped`, `LeakedForEver`).
- Calls that leave locks behind: a CPU lock that fails on the video frame keeps the plane locked
  (`HalfLockLeaks`), a lock call of the wrong kind for the format keeps the shared block locked, and a
  free that cannot map the shared block keeps the plane's locks and reports success
  (`FailedFreeLeaks`). Nothing else does (`BalancedEndsAtZeroIff`).
- An allocator that arrives under a running preview finds heaps that do not match if they were never
  resized (`LateAllocator`) or if something called for has changed since (`AllocatorAway`);
  `SetCallbacks` has the exact condition.
- The camera's YV12 frame size differs from the allocator's for odd heights (`CameraAgreesIff`).
- Cropping the preview to its window takes off only half of what is too much (`ShownFitsIff`), and the
  row copy is skipped for equal byte counts even if the shapes differ (`SkippedCopyKeepsRowsIff`).
- Clipping a scaled layer shows the wrong part of it (`ScaledKeepsPartIff`) or drops it although it is
  visible (`VisibleButSkipped`).

## Model

| member | source | states |
|---|---|---|
| `DisplayRing.DisplayFifo.Init` | hals/hwcomposer/hwcomposer.cpp:1045-1051 | the ring holds exactly the three new buffers in order |
| `DisplayRing.DisplayFifo.Put` | hals/hwcomposer/hwcomposer.cpp:3127-3143 | a non-null surface is appended, a null one changes nothing |
| `DisplayRing.DisplayFifo.Recycle` | hals/hwcomposer/hwcomposer.cpp:3190-3213 | the array loop refines the ring function that stores only surfaces that are still display buffers |
| `DisplayRing.DisplayFifo.ReadSlot` | hals/hwcomposer/hwcomposer.cpp:3253-3258 | commits the oldest element and returns its slot, which still holds it |
| `DisplayRing.WriteAppends` | hals/hwcomposer/hwcomposer.cpp:3134-3137 | a write appends to the contents and spares the slot last read while one slot stays free |
| `DisplayRing.ReadDropsOldest` | hals/hwcomposer/hwcomposer.cpp:3253-3257 | a read removes exactly the oldest surface |
| `DisplayRing.StoreAllAppends` | hals/hwcomposer/hwcomposer.cpp:3201-3210 | recycling appends exactly the current surfaces in order, and a reader's slot survives if they do not fill the ring |
| `DisplayRing.SplitConserves` | hals/hwcomposer/hwcomposer.cpp:3176-3213 | recycled surfaces are current or stale, none invented or forgotten |
| `Pipeline.ShapeKept` | hals/hwcomposer/hwcomposer.cpp:3540-3875 | every step keeps the ring and the timelines well formed |
| `SurfaceInvariant.StepInv` | hals/hwcomposer/hwcomposer.cpp:3127-3261 | each of the steps keeps surface conservation, slot safety and the bookkeeping of a toggle under way |
| `SurfaceInvariant.RingFits` | hals/hwcomposer/hwcomposer.cpp:3127-3143 | ring and composer together never exceed the three surfaces, so a write never overflows |
| `SurfaceInvariant.StoreInv` | hals/hwcomposer/hwcomposer.cpp:3190-3213 | recycling while another thread has read a slot, or across a toggle, keeps conservation |
| `PipelineTheorems.SurfacesConserved` | hals/hwcomposer/hwcomposer.cpp:3127-3261 | in every run ring, composer, lost and away surfaces are disjoint and together exactly the owners; the ring has no duplicate and never exceeds 3; owners are the current buffers outside a toggle that is under way or failed |
| `Losses.LostExactly` | hals/hwcomposer/hwcomposer.cpp:3127-3261 | in every run the lost surfaces are exactly those of failed pushes and timed-out checkpoints, and those recycled when a toggle had replaced their buffer; their number is at most that of these steps |
| `Losses.ThreeInCirculation` | hals/hwcomposer/hwcomposer.cpp:3763-3811 | without such a failure and without a toggle nothing is lost: ring, composer and the surfaces on their way back are always the three buffers |
| `Losses.RingIsQueue` | hals/hwcomposer/hwcomposer.cpp:3127-3143 | in every run a dropped frame's surface, and a recycled one that is current, is the last of the ring's contents; a frame takes the first; nothing but a finished toggle touches the rest |
| `Losses.StepLoses` | hals/hwcomposer/hwcomposer.cpp:3763-3811 | the surfaces that each single step loses |
| `Losses.NeverStuck` | hals/hwcomposer/hwcomposer.cpp:3777-3875 | from every state of every run steps of the composer alone finish the frame it has |
| `PipelineTheorems.ReadSlotSurvives` | hals/hwcomposer/hwcomposer.cpp:3253-3260 | the slot dereferenced after the lock is dropped still holds the surface that was read, and nobody else has it |
| `PipelineTheorems.RetireConserved` | hals/hwcomposer/hwcomposer.cpp:3145-3215 | retire value + undecided frames + outstanding surfaces + missed + skipped equals the set calls, in every run |
| `PipelineTheorems.RetireNeverAhead` | hals/hwcomposer/hwcomposer.cpp:3263-3291 | the retire fence of a queued or composing frame has not signalled |
| `PipelineTheorems.DrainedRetires` | hals/hwcomposer/hwcomposer.cpp:3777-3843 | when all is drained and recycled, every retire fence has signalled if and only if nothing was skipped or missed |
| `PipelineTheorems.RetireBeforeRecycle` | hals/hwcomposer/hwcomposer.cpp:3810-3815 | a run in which a displayed frame's retire fence signals early because a later frame is dropped |
| `PipelineTheorems.RetireByOvertaking` | hals/hwcomposer/hwcomposer.cpp:3190-3215 | a run without any dropped frame in which it signals early because a later surface is recycled first |
| `RetireLedger.StepInv` | hals/hwcomposer/hwcomposer.cpp:3145-3291 | every step keeps each set call in exactly one place: queued or composing, on display or on its way back, stepped, missed or skipped |
| `RetireLedger.EveryFrameOnce` | hals/hwcomposer/hwcomposer.cpp:3145-3291 | the same of every run, call by call |
| `RetireLedger.RetireSignalledIff` | hals/hwcomposer/hwcomposer.cpp:3145-3291 | the retire fence of call v has signalled if and only if as many later frames have taken their timeline step as frames up to v have not |
| `RetireLedger.EarlyIffDropped` | hals/hwcomposer/hwcomposer.cpp:3777-3843 | with nothing skipped or missed and no surface overtaken, a frame still out has an early fence if and only if a frame was dropped since the oldest one out was pushed |
| `RetireLedger.OldestFirstInOrder` | hals/hwcomposer/hwcomposer.cpp:3190-3215 | a run that recycles oldest first overtakes no surface |
| `RetireLedger.OldestFirstEarlyIff` | hals/hwcomposer/hwcomposer.cpp:3777-3843 | the same exact condition for every run that recycles oldest first |
| `Timelines.RetireStep` | hals/hwcomposer/hwcomposer.cpp:3145-3291 | every step keeps the retire sum and the order of undecided frames |
| `Timelines.LayerStep` | hals/hwcomposer/hwcomposer.cpp:3293-3340 | every step keeps the release sum of every layer |
| `Timelines.LayerRelease` | hals/hwcomposer/hwcomposer.cpp:2100-2150 | a release consumes the first fence value a layer is owed |
| `PipelineTheorems.ReleaseConserved` | hals/hwcomposer/hwcomposer.cpp:3293-3340 | per layer: value + carried fences + orphans equals the index; without orphans the k-th carried fence is the k-th value to come |
| `PipelineTheorems.ReleaseSignalsOwnFence` | hals/hwcomposer/hwcomposer.cpp:2127-2150 | a release signals the releasing frame's own fence, which had not signalled, and cannot happen twice |
| `PipelineTheorems.DrainedReleases` | hals/hwcomposer/hwcomposer.cpp:3854-3875 | with no frame left the last fence of a layer has signalled if and only if none was orphaned |
| `PipelineTheorems.StaleAfterFailedToggle` | hals/hwcomposer/hwcomposer.cpp:980-1057 | a run after which the composer holds a surface that is no display buffer |
| `PipelineTheorems.HeldIsCurrentIff` | hals/hwcomposer/hwcomposer.cpp:3565-3570 | the handle the composer holds is still listed as a display buffer if and only if its place lies past the buffers that failed toggles replaced or emptied |
| `PipelineTheorems.OwnerIsCurrentIff` | hals/hwcomposer/hwcomposer.cpp:1013-1039 | the same of every handle the ring was initialised with |
| `Toggles.StepInv` | hals/hwcomposer/hwcomposer.cpp:989-1057 | every step keeps: under way or failed, a toggle has destroyed all the ring's surfaces, otherwise none is destroyed; and which display buffers are alive, destroyed or null |
| `Toggles.HeldIsDestroyedIff` | hals/hwcomposer/hwcomposer.cpp:989-1039 | in every run the surface the composer holds is destroyed if and only if a toggle has failed since the ring was initialised, wherever it failed |
| `Toggles.RingIsDestroyedIff` | hals/hwcomposer/hwcomposer.cpp:989-1039 | the same of every surface in the ring |
| `Toggles.DestroysTwiceIff` | hals/hwcomposer/hwcomposer.cpp:989-999 | a toggle destroys some surface a second time if and only if one has failed and left a buffer it had not come to |
| `Toggles.DestroyedButCurrent` | hals/hwcomposer/hwcomposer.cpp:1002-1010 | a run in which the composer holds a listed display buffer that is destroyed |
| `Handshake.StepInv` | hals/hwcomposer/hwcomposer.cpp:4764-4807 | every step keeps the call counts, the wake-up guarantee, the backlog bound and, without fences, the alternation |
| `Handshake.BackPressure` | hals/hwcomposer/hwcomposer.cpp:3506-3518 | backlog with latched events is at most 2 between set calls and 3 during one, one more each once a frame was signalled inline |
| `Handshake.NeverStranded` | hals/hwcomposer/hwcomposer.cpp:4764-4807 | a non-empty queue has a pending kick, a draining composer or a setter about to kick |
| `Handshake.SetReturnsComposed` | hals/hwcomposer/hwcomposer.cpp:3500-3504 | without fences a returning set call has seen every frame composed to the end |
| `Handshake.ThrottledIsReleased` | hals/hwcomposer/hwcomposer.cpp:3511-3516 | a throttled set call is released within four composer steps, although signals coalesce |
| `Handshake.ReturnsAtOnceIff` | hals/hwcomposer/hwcomposer.cpp:3511-3516 | with fences a set call returns without waiting if and only if the queued frames and the calls ever skipped are none, or at most one if it signalled a video frame inline |
| `Handshake.EveryFrameReleases` | hals/hwcomposer/hwcomposer.cpp:4790-4800 | every composed frame latches the release of a throttled call |
| `Handshake.SyncIsLatched` | hals/hwcomposer/hwcomposer.cpp:3500-3504 | without fences a waiting set call is released within six composer steps |
| `BlitFences.LatchedEventStays` | hals/hwcomposer/hwcomposer.cpp:5603-5620 | over any number of frames, what events are outstanding gets no less while each wait that returns does so on the oldest one |
| `BlitFences.PendingMeans` | hals/hwcomposer/hwcomposer.cpp:2127-2150 | a layer is pending if and only if some blit of it is not known to be behind a reached checkpoint or an idle blitter |
| `BlitFences.SafeMeans` | hals/hwcomposer/hwcomposer.cpp:2127-2150 | safe is exactly that every signal finds its layer not pending |
| `BlitFences.SettledReturns` | hals/hwcomposer/hwcomposer.cpp:5603-5620 | with no event outstanding a checkpoint that returns covers every blit |
| `BlitFences.Composition.Checkpoint` | hals/hwcomposer/hwcomposer.cpp:5603-5620 | what a checkpoint that returns, times out or is refused tells of the queue |
| `BlitFences.Composition.ClearFences` | hals/hwcomposer/hwcomposer.cpp:2127-2150 | signals each held fence below the bound once, and counts those signalled over a pending blit |
| `BlitFences.Composition.FlushAndClear` | hals/hwcomposer/hwcomposer.cpp:2320-2330 | fences go only if the checkpoint returns, whichever checkpoint's event it was |
| `BlitFences.Composition.ComposeRgb` | hals/hwcomposer/hwcomposer.cpp:2592-2621 | blit, full queue, retry and forced checkpoint: what enters the queue in which order, what it adds to the composed layers, and where the fences are left |
| `BlitFences.Composition.ComposeYv12` | hals/hwcomposer/hwcomposer.cpp:2487-2510 | the same for the packet path with its own checkpoint |
| `BlitFences.Composition.ComposeFrame` | hals/hwcomposer/hwcomposer.cpp:3777-3875 | layer l is blitted once if its answer is ok, or the queue was full and the retry taken, or its packet was written, and never otherwise; the count is the layers blitted less the YV12 ones whose own checkpoint failed; with fences each blit is followed by its own checkpoint, and some checkpoint follows the last blit; every fence is signalled exactly once; safe if and only if no layer with a fence is among the uncovered ones, which are computed from the layers and the answers |
| `BlitFences.Composition.ComposeLayers` | hals/hwcomposer/hwcomposer.cpp:3603-3765 | the loop over the layers keeps all of that, layer by layer |
| `BlitFences.SweptAfter` | hals/hwcomposer/hwcomposer.cpp:2320-2330 | how far fences have been let go after a layer: below it if its own checkpoint returned, below the one before if only the flush did |
| `BlitFences.TraceBlits` | hals/hwcomposer/hwcomposer.cpp:2592-2621 | what is asked of the blitter for one layer holds its blit once or not at all, and no other layer's |
| `BlitFences.NoFailureIsSafe` | hals/hwcomposer/hwcomposer.cpp:3777-3875 | with no event outstanding and no failed checkpoint a frame is safe and leaves no event outstanding |
| `BlitFences.SafeUntilFailure` | hals/hwcomposer/hwcomposer.cpp:3777-3875 | the same of any number of frames until the first failure |
| `BlitFences.OwnEventsUncovered` | hals/hwcomposer/hwcomposer.cpp:3777-3875 | when waits return on their own events, the uncovered layers are exactly those whose blit no later checkpoint covered, however many failed |
| `BlitFences.TimeoutReleasesEarly` | hals/hwcomposer/hwcomposer.cpp:2487-2503 | a composed frame whose fence signals over a live blit after its own timeout |
| `BlitFences.LatchedEventReleasesEarly` | hals/hwcomposer/hwcomposer.cpp:5603-5620 | a frame in which every checkpoint returns and a fence still signals early, because of an earlier frame's timeout |
| `Classification.Context.MakeOverlays` | hals/hwcomposer/hwcomposer.cpp:2836-2884 | the first in-place pass gives every layer its own best type |
| `Classification.Context.CountVideo` | hals/hwcomposer/hwcomposer.cpp:2886-2900 | counts video and sideband layers exactly |
| `Classification.Context.GiveUpOverlays` | hals/hwcomposer/hwcomposer.cpp:2913-2925 | turns exactly the non-video overlays into framebuffer layers |
| `Classification.Context.Setup` | hals/hwcomposer/hwcomposer.cpp:2822-2926 | the passes together give every layer its assigned type and set the target flag, in every mode |
| `Classification.OverlaysAre` | hals/hwcomposer/hwcomposer.cpp:2870-2880 | on the layer's own fields, which layers end as overlays in each mode: in fallback mode those with a buffer that can be scaled and are not skipped, and of these only video unless all layers decided about are such |
| `Classification.TargetNeededIff` | hals/hwcomposer/hwcomposer.cpp:2902-2911 | on the layers' fields, when the framebuffer target is composed in each mode |
| `Classification.FallbackAllOrVideo` | hals/hwcomposer/hwcomposer.cpp:2902-2925 | in fallback mode the target is needed if and only if a framebuffer layer remains, and then only video stays an overlay |
| `Classification.FixedKinds` | hals/hwcomposer/hwcomposer.cpp:2843-2854 | sideband, target and cursor layers are untouched |
| `Classification.Idempotent` | hals/hwcomposer/hwcomposer.cpp:2822-2926 | a second run changes no type and no target decision, in any mode |
| `Clipping.Clip` | hals/hwcomposer/hwcomposer.cpp:2198-2232 | which layers are blitted, and both rectangles of the blit, including 16-bit wrap of the source |
| `Clipping.OutputIsIntersection` | hals/hwcomposer/hwcomposer.cpp:2200-2224 | the output covers exactly the pixels of the position that are on the surface |
| `Clipping.SourceInsideIff` | hals/hwcomposer/hwcomposer.cpp:2204-2205 | the source stays inside its rectangle if and only if its start does not wrap |
| `Clipping.UnscaledKeepsPixels` | hals/hwcomposer/hwcomposer.cpp:2198-2224 | unscaled: every pixel keeps its source pixel, and only invisible layers are skipped |
| `Clipping.ScaledKeepsPartIff` | hals/hwcomposer/hwcomposer.cpp:2198-2224 | the clipped blit shows the same part of the source if and only if the axis was not scaled or not cut |
| `Clipping.VisibleButSkipped` | hals/hwcomposer/hwcomposer.cpp:2226-2232 | an enlarged layer that is visible and skipped |
| `Debounce.RearmedWindow` | hals/audio/brcm_audio_nexus_tunnel.cpp:308-318 | a re-armed window is short by less than 1 ms, and full if and only if the elapsed time is whole milliseconds or past the window |
| `Debounce.StepThreading` | hals/audio/brcm_audio_nexus_tunnel.cpp:297-342 | flags, helper thread and stop stay in step, and threads are conserved |
| `Debounce.OneThread` | hals/audio/brcm_audio_nexus_tunnel.cpp:345-365 | at most one helper thread; each one ended was detached or joined, never both |
| `Debounce.ActsAtOnce` | hals/audio/brcm_audio_nexus_tunnel.cpp:345-438 | when a pause or a resume reaches decoder and STC in the call itself, and when a helper thread is made instead |
| `Debounce.DriveAgreesIff` | hals/audio/brcm_audio_nexus_tunnel.cpp:381-398 | decoder and STC agree after a request if and only if the STC was set, the decoder was not, or the rollback left it where the STC is |
| `Debounce.StopCanJoin` | hals/audio/brcm_audio_nexus_tunnel.cpp:245-259 | a stop that waits is always joined by the helper's next critical section, which leaves the hardware alone |
| `Debounce.LastRequestWins` | hals/audio/brcm_audio_nexus_tunnel.cpp:345-438 | without a failure decoder and STC follow the last request carried out; with no helper alive that is the last request if and only if no stop has joined the helper since it, or both are the same |
| `Debounce.JoinedStopChangesNothing` | hals/audio/brcm_audio_nexus_tunnel.cpp:245-259 | a stop that joins the helper leaves decoder and STC as they were when it was created |
| `Debounce.PauseLost` | hals/audio/brcm_audio_nexus_tunnel.cpp:245-259 | a run in which the last request is a pause and the hardware runs on |
| `Debounce.PauseIsDeferred` | hals/audio/brcm_audio_nexus_tunnel.cpp:297-342 | a deferred pause acts only after more than 299 ms without a resume |
| `Debounce.FullWindowIff` | hals/audio/brcm_audio_nexus_tunnel.cpp:297-342 | in every run, a pause carried out on time waited a full 300 ms if and only if it was not re-armed, or re-armed on a whole millisecond or past the window |
| `Debounce.WindowFallsShort` | hals/audio/brcm_audio_nexus_tunnel.cpp:308-318 | a run in which the full 300 ms are not kept |
| `AvSync.Pump` | hals/audio/brcm_audio_nexus_tunnel.cpp:627-722 | one frame goes out whole whatever room the pump offers first; the two assertions of the loop hold |
| `AvSync.Write` | hals/audio/brcm_audio_nexus_tunnel.cpp:521-728 | emits the units and returns the count of the specification, however the pump is paced |
| `AvSync.RoundTrip` | hals/audio/brcm_audio_nexus_tunnel.cpp:540-565 | de-framing inverts framing for every packet list: payloads in order, one header per non-empty packet, input length less the headers of empty packets |
| `AvSync.CountsAllIff` | hals/audio/brcm_audio_nexus_tunnel.cpp:565-689 | the write returns the input length if and only if no packet is empty |
| `AvSync.EmptyPacketUncounted` | hals/audio/brcm_audio_nexus_tunnel.cpp:565-689 | a lone empty packet is consumed and nothing is counted |
| `AvSync.TailBeforeHeader` | hals/audio/brcm_audio_nexus_tunnel.cpp:546-547 | the marker cannot overlap the end of a marker-free tail |
| `AvSync.OneChunk` | hals/audio/brcm_audio_nexus_tunnel.cpp:540-724 | what one write takes off the stream, emits and counts, ending inside a payload or inside a header |
| `AvSync.SplitInvariant` | hals/audio/brcm_audio_nexus_tunnel.cpp:540-724 | marker-free payloads come out the same wherever the stream is split outside the markers, any number of times, headers included; a header that was cut belongs to the next write |
| `AvSync.SplitCounts` | hals/audio/brcm_audio_nexus_tunnel.cpp:540-724 | each of those writes returns what it used, less the headers of its empty packets |
| `AvSync.CallerResumes` | hals/audio/brcm_audio.cpp:385-400 | with no empty packet, a caller that resumes at the first byte not counted makes just these writes, until all is delivered |
| `AvSync.CutHeaderLeftAlone` | hals/audio/brcm_audio_nexus_tunnel.cpp:550-554 | packets followed by the beginning of a header, the marker at least, are emitted and counted as if it was not there |
| `AvSync.HeaderCutIff` | hals/audio/brcm_audio_nexus_tunnel.cpp:540-554 | a write cut inside a header emits and counts exactly its packets if and only if none or all of the marker is in it |
| `AvSync.PacketsThen` | hals/audio/brcm_audio_nexus_tunnel.cpp:540-724 | whole packets go out before whatever follows them, for units and count alike |
| `AvSync.TailIntactIff` | hals/audio/brcm_audio_nexus_tunnel.cpp:609-620 | a tail is emitted unchanged if and only if it holds no marker |
| `Capture.KeptIsFirstChannelIff` | hals/audio/AudioStreamIn.cpp:491-498 | what is kept is the first channel if and only if there are at most two channels or one frame |
| `Capture.AudioStreamIn.Fold` | hals/audio/AudioStreamIn.cpp:491-498 | the in-place fold reads only samples not yet overwritten |
| `Capture.AudioStreamIn.GetNextBuffer` | hals/audio/AudioStreamIn.cpp:469-507 | hands out frames at the front of the stream and changes the stream in no way, or reports the error |
| `Capture.AudioStreamIn.ReleaseBuffer` | hals/audio/AudioStreamIn.cpp:510-517 | removes exactly the frames handed out |
| `Capture.AudioStreamIn.ReadFrames` | hals/audio/AudioStreamIn.cpp:406-442 | succeeds if and only if enough frames come before the next error, and then returns exactly the next ones |
| `Capture.AudioStreamIn.Session` | hals/audio/AudioStreamIn.cpp:406-517 | successive reads concatenate to a prefix of the stream |
| `FrameLock.MutualExclusion` | hals/gralloc/gralloc_priv.h:160-234 | at most one process is between acquire and release, in every run of any number of processes |
| `FrameLock.ReleaseFindsOne` | hals/gralloc/gralloc_priv.h:227-228 | every release that makes its exchange finds one, succeeds with result zero and leaves nobody inside |
| `FrameLock.StuckIffUnmapped` | hals/gralloc/gralloc_priv.h:218-226 | the word is taken with nobody inside if and only if some release could not map the shared block |
| `FrameLock.LeakedForEver` | hals/gralloc/gralloc_priv.h:218-226 | after such a release no process is ever inside again |
| `FrameLock.LeaksOnce` | hals/gralloc/gralloc_priv.h:218-226 | it happens at most once in a run |
| `FrameLock.ReleasesOncePerAcquire` | hals/gralloc/mapper.cpp:266-303 | every acquisition is followed by exactly one release call on every path, mapped or not |
| `FrameLock.StepMarked` | hals/gralloc/mapper.cpp:401-442 | each step keeps that the installed surface is destriped if and only if it is marked or about to be |
| `FrameLock.DestripedOnce` | hals/gralloc/mapper.cpp:401-442 | no installed surface is destriped twice, and one marked complete has been destriped |
| `FrameLock.ReaderSeesDestriped` | hals/gralloc/mapper.cpp:417-434 | in every run a reader that acts with a surface installed, and whose destripe does not fail, leaves that surface destriped when it lets the lock go, and marked complete if it is still the current one |
| `FrameLock.ReaderDestripesIff` | hals/gralloc/mapper.cpp:282-299 | a reader starts to destripe if and only if a surface is installed that is not complete, and it is that surface |
| `FrameLock.OthersLeaveFrame` | hals/gralloc/mapper.cpp:417-434 | a lock for writing, or for neither, never destripes and changes nothing of the frame |
| `FrameLock.DecoderSetsFrame` | hals/gralloc/gralloc_priv.h:160-234 | installing makes a never destriped surface current, taking it back leaves none |
| `FrameLock.ExchangeTakesIff` | hals/gralloc/gralloc_priv.h:188-201 | an exchange takes the lock if and only if the word is zero |
| `FrameLock.Deadline` | hals/gralloc/gralloc_priv.h:180-187 | the normalised deadline is the start plus the timeout |
| `FrameLock.ExpiresAfterTimeout` | hals/gralloc/gralloc_priv.h:192-199 | the field-by-field test gives up if and only if more than the timeout has passed |
| `FrameLock.LockVideoFrame` | hals/gralloc/gralloc_priv.h:188-201 | the spin loop takes the lock at the first exchange that can, and reports busy only past the deadline |
| `PlaneLocks.Buffer.Alloc` | hals/gralloc/gralloc.cpp:649-783 | when allocation succeeds, and the counts it leaves on every path |
| `PlaneLocks.Buffer.Clear` | hals/gralloc/gralloc.cpp:262-346 | clearing brackets its locks, or keeps the one that succeeded when the other fails |
| `PlaneLocks.Buffer.Free` | hals/gralloc/gralloc.cpp:798-853 | gives back the allocation's locks, or reports success and keeps them when the shared block cannot be mapped |
| `PlaneLocks.Buffer.Register` | hals/gralloc/mapper.cpp:76-130 | one plane lock in locked mode, shared block left as found |
| `PlaneLocks.Buffer.Unregister` | hals/gralloc/mapper.cpp:135-197 | gives back one plane lock in locked mode |
| `PlaneLocks.Buffer.UseFrame` | hals/gralloc/mapper.cpp:401-442 | when a YV12 frame can be used; shared locks are transient |
| `PlaneLocks.Buffer.Lock` | hals/gralloc/mapper.cpp:349-483 | which calls lock, are refused or stop half way, with the counts of each |
| `PlaneLocks.Buffer.Unlock` | hals/gralloc/mapper.cpp:485-550 | when it succeeds, fails or faults, with the counts of each |
| `PlaneLocks.TallyIsExpected` | hals/gralloc/mapper.cpp:92-130 | over every sequence of calls the counts are: locked mode allocated + registrations + client locks, offset allocated; unlocked mode client locks for both; shared the refused calls |
| `PlaneLocks.CountsFollowHistory` | hals/gralloc/mapper.cpp:388-395 | a buffer's real counts obey that law after any calls |
| `PlaneLocks.BalancedEndsAtZeroIff` | hals/gralloc/mapper.cpp:515-550 | a history balanced as far as the calls report ends at zero if and only if no call left a lock behind, a failed free included |
| `PlaneLocks.HeldPlaneStaysLocked` | hals/gralloc/mapper.cpp:515-550 | while callers take before they give, no count is negative and a held plane stays locked |
| `PlaneLocks.HalfLockLeaks` | hals/gralloc/mapper.cpp:401-442 | a balanced history that leaves the plane locked |
| `PlaneLocks.FailedFreeLeaks` | hals/gralloc/gralloc.cpp:798-853 | a history in which every call reports success and both of the plane's counts stay at one |
| `Yv12Layout.MaskIsDivision` | hals/gralloc/gralloc.cpp:577-579 | the alignment mask is rounding down to sixteen, on 32-bit words |
| `Yv12Layout.ViewsTileTheBuffer` | hals/gralloc/gralloc.cpp:572-579 | mapper, destriper and composer agree, planes are consecutive and end with the allocation, rows fit, for odd sizes too |
| `Yv12Layout.PlaceHasItsByte` | hals/gralloc/gralloc_destripe.cpp:95-129 | no two places of the planes share a byte or leave the buffer |
| `Yv12Layout.ByteHasItsPlace` | hals/gralloc/mapper.cpp:242-258 | every byte of the buffer belongs to a plane |
| `Yv12Layout.PlacesAreBytes` | hals/hwcomposer/hwcomposer.cpp:2272-2292 | places and bytes correspond one to one, for every width and height |
| `Yv12Layout.CameraAgreesIff` | hals/camera2/CameraHardware.cpp:1109-1117 | the camera's frame size equals the allocator's if and only if the height is even or the width zero |
| `CameraHeaps.CameraHardware.InitHeapLocked` | hals/camera2/CameraHardware.cpp:990-1275 | with an allocator every heap follows the active size and formats, and a running preview goes on if nothing it uses had to change and otherwise runs again if and only if the camera opens, inits and streams; which parameters and heaps it leaves; without an allocator nothing happens |
| `CameraHeaps.CameraHardware.FitRaw` | hals/camera2/CameraHardware.cpp:1013-1080 | raw frames fit the active size, are replaced only if they did not, and the preview is stopped exactly then |
| `CameraHeaps.CameraHardware.FitPreview` | hals/camera2/CameraHardware.cpp:1082-1150 | the same for preview frames |
| `CameraHeaps.CameraHardware.FitRecording` | hals/camera2/CameraHardware.cpp:1152-1218 | the same for recording frames |
| `CameraHeaps.CameraHardware.StartPreviewLocked` | hals/camera2/CameraHardware.cpp:465-539 | the preview runs afterwards if and only if it did before or the camera opens, inits and streams; the camera's size replaces the active one and the heaps follow |
| `CameraHeaps.CameraHardware.ChangeMessages` | hals/camera2/CameraHardware.cpp:389-428 | keeps the invariant when video messages are switched; a running preview runs afterwards if and only if nothing it uses had to change or the camera starts |
| `CameraHeaps.CameraHardware.StartRecording` | hals/camera2/CameraHardware.cpp:602-621 | keeps the invariant when recording starts; a running preview runs afterwards if and only if nothing it uses had to change or the camera starts |
| `CameraHeaps.CameraHardware.StopRecording` | hals/camera2/CameraHardware.cpp:623-641 | keeps the invariant when recording stops; a running preview runs afterwards if and only if nothing it uses had to change or the camera starts |
| `CameraHeaps.CameraHardware.SetParameters` | hals/camera2/CameraHardware.cpp:691-748 | what is accepted; that a running preview runs afterwards if and only if nothing it uses had to change or the camera starts; which parameters and heaps are left; that the invariant is kept |
| `CameraHeaps.CameraHardware.TakePicture` | hals/camera2/CameraHardware.cpp:1647-1777 | ends the preview, changes only the picture size and heaps, and grabs exactly what the picture heap holds |
| `CameraHeaps.CameraHardware.Resize` | hals/camera2/CameraHardware.cpp:1013-1268 | every heap is replaced exactly if its size is not what is called for, and the preview is stopped exactly if one it uses was |
| `CameraHeaps.Refitted` | hals/camera2/CameraHardware.cpp:1013-1268 | a resize meets the need, keeps the heaps that met it, and leaves every frame with a buffer if there was room |
| `CameraHeaps.ResizeWhileRunning` | hals/camera2/CameraHardware.cpp:1268-1272 | a running preview given another size runs again, with heaps and parameters of the camera's size |
| `CameraHeaps.CameraHardware.MatchesIff` | hals/camera2/CameraHardware.cpp:990-1275 | the heaps match if and only if what is called for is what they were last resized for |
| `CameraHeaps.CameraHardware.SetCallbacks` | hals/camera2/CameraHardware.cpp:371-386 | with an allocator that arrives under a running preview the invariant holds if and only if the heaps were resized before, nothing called for has changed since, and the camera delivers the active size |
| `CameraHeaps.LateAllocator` | hals/camera2/CameraHardware.cpp:371-386 | a preview started without an allocator always breaks it |
| `CameraHeaps.AllocatorAway` | hals/camera2/CameraHardware.cpp:371-386 | so does a format that changes while the allocator is away |
| `CameraHeaps.CameraHardware.PreviewThread` | hals/camera2/CameraHardware.cpp:1321-1427 | every access lies inside its buffer, zero-copy included; the grab asks for exactly one delivered frame; a YUYV preview that is no zero-copy gets every row of the common corner |
| `CameraHeaps.FramesHoldPicture` | hals/camera2/CameraHardware.cpp:1082-1187 | preview and recording frames of every format have room for twelve bits a pixel, and the unpadded ones no more than theirs |
| `CameraHeaps.CopyPreview` | hals/camera2/CameraHardware.cpp:1384-1427 | the common corner of the frame comes from the recording, every other byte is kept |
| `RowCopy.LaidNext` | hals/camera2/CameraHardware.cpp:1421-1425 | moving both pointers on by their own pitch lays one more row without touching those above |
| `RowCopy.CopyRows` | hals/camera2/V4L2Camera.cpp:652-664 | byte by byte which source byte every byte of the picture is, and which bytes are kept |
| `CameraHeaps.FrameHasRows` | hals/camera2/CameraHardware.cpp:1384-1394 | a frame of its size has all the rows the copy touches |
| `CameraHeaps.SkippedCopyKeepsRowsIff` | hals/camera2/CameraHardware.cpp:1413-1416 | skipping the copy keeps rows in place if and only if the sizes are the same |
| `CameraHeaps.ShownFitsIff` | hals/camera2/CameraHardware.cpp:1518-1536 | the cropped picture fits its window if and only if it was at most one pixel too wide |
| `ModeChoice.Closest` | hals/camera2/V4L2Camera.cpp:153-187 | the first of the covering modes least in extra area, then in frame-rate distance; none if and only if none covers |
| `ModeChoice.BestMeans` | hals/camera2/V4L2Camera.cpp:160-180 | on the modes' fields: least area of those that cover, and of that area none is nearer the requested rate |
| `ModeChoice.RealSizesAreSensible` | hals/camera2/V4L2Camera.cpp:160-170 | every request for a real size meets the condition of that choice |
| `ModeChoice.MarginCentres` | hals/camera2/V4L2Camera.cpp:256-258 | the margin is even and centred to within three pixels |
| `ModeChoice.V4L2Camera.Init` | hals/camera2/V4L2Camera.cpp:153-272 | succeeds if and only if the driver accepts and a mode covers; if the driver keeps the size every row is read inside the frame |
| `ModeChoice.V4L2Camera.SetCrop` | hals/camera2/V4L2Camera.cpp:242-272 | output size, line length and crop offset; the corrections for a smaller mode are never needed |
| `ModeChoice.V4L2Camera.GrabRawFrame` | hals/camera2/V4L2Camera.cpp:556-664 | drops a frame if and only if the buffer is too small, otherwise copies exactly the crop |
| `ModeChoice.ReadInsideIff` | hals/camera2/V4L2Camera.cpp:236-240 | whatever size the driver settles on, the crop is read inside the image if and only if its last row ends there |
| `ModeChoice.ShownInsideIff` | hals/camera2/V4L2Camera.cpp:242-272 | the bytes read for each row are pixels of the line it stands for if and only if the crop fits the driver's picture both ways |

## Assumptions

- Foreign calls: new surface handles differ from live ones, each pushed surface is recycled once,
  events are binary and auto-reset, mutex calls succeed, a successful memory-block lock returns a
  non-null pointer and a failed one a null pointer, locks of the plane block succeed outside clearing.
- Queuing a frame and installing its fences is one step. The source queues at line 3433 and installs
  at line 3462 of `hals/hwcomposer/hwcomposer.cpp`; a fence installed too late for its frame is
  counted as orphaned.
- The millisecond helper of the debounce rounds up and reports minus one out of range; its library is
  not part of this model.
- Integers are unbounded except the 16-bit rectangles of clipping.
- Memory-block counters are atomic, so calls of several processes are modelled one after another.

## Left out

- Virtual-display fences: the shared clearing routine advances the primary timelines, so the claims are restricted to the primary display.
- Mode change from the dump path, debugging, timing statistics, ticker: not part of the protocol.
- DisplayRing.DisplayFifo.Recycle: the display buffers and the answer of the recycle call are parameters; a failed mutex lock, which loses surfaces, is not modelled. In the pipeline the buffers may change between two turns of the loop.
- Debounce: a decoder and an STC that are not ready, start or stop calls that overlap, a start while a helper thread is alive, and a pause or resume between the end of the helper and the end of the stop that joins it are not modelled; what start and stop do to the decoder besides is left out.
- BlitFences.Composition.ComposeFrame: blits of seeding fills and of earlier frames are not tracked, only the events those left outstanding.
- AvSync.Pump: buffer requests and write completions that fail are not modelled, as for `AvSync.Write`.
- AvSync.Write: a playpump call that fails, after which the source repeats the outer loop, is not modelled; frame-size sniffing of AC-3, E-AC-3 and DTS is finite table work.
- AvSync.SplitInvariant: a stream split inside a marker is left out; it does not come out whole, as `AvSync.HeaderCutIff` says.
- Capture.AudioStreamIn.Session: no resampler, and one session only, because standby does not reset the frame count.
- Clipping.Clip: the YV12 blit path ignores the clipped source rectangle; only the rectangles themselves are modelled.
- Classification.Context.Setup: layer hints and the debug output are left out; whether a buffer is video or can be scaled is an attribute of the layer.
- PlaneLocks.Buffer.Lock: the addresses written into the handle and cache flushes are left out.
- FrameLock.DestripedOnce: the decoder's side is modelled by its install and retract calls only; that it can destripe a frame itself in metadata mode is left out.
- CameraHeaps.CameraHardware.PreviewThread: only the direct copies are checked; the converters of the planar formats and the drawing into the preview window, apart from the width it shows, are left out.
- CameraHeaps.CameraHardware.InitHeapLocked: the heap fields are one record, and a heap is its frame size and whether it has a buffer; where buffers lie is left out.
- CameraHeaps.CameraHardware.TakePicture: a picture heap that could not be allocated is not checked by the source before the grab; luminance metering and JPEG compression are left out.
- ModeChoice.V4L2Camera.GrabRawFrame: only the YUYV capture format; the other converters are left out.
- ModeChoice.Closest: for a request with negative sizes, where a covering mode can have less area than the request, only coverage of the chosen mode is promised.
- Sideband library, HDMI CEC, lights, memtrack, infrared, volume table, hotplug table: one branch per case or I/O plumbing.
