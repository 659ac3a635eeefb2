# Juice controller, agent and rgpu: a verified model

Dafny models of the parts of the repository whose correctness rests on several functions at once, with the
properties they are meant to keep. `dafny verify dfyconfig.toml` checks everything.

**GPU scheduling and VRAM accounting.** The controller keeps each session twice, in the session table and inside its
agent's record, beside a running total of the agent's free VRAM; a single scheduler replays an agent's sessions into a
fresh `GpuSet` and runs `Find`; the agent polls, registers, merges what its sessions report and sends it back.
`GpuSpec` says on values what the allocator computes, `FindIntent` when that is what is intended, and `GpuSets` is the
allocator itself, GPUs shared by reference. `MemdbSpec` gives each storage transaction as a function and `Memdb` the
driver whose methods compute it. `ControllerInv` is the storage invariant, `Backend` the scheduler. `AgentSpec` and
`Nodes` are the agent on values, `AgentProcess` its imperative code. `Protocol` puts all parties together as atomic
steps in any order, with agent updates allowed between the scheduler's read and its assignment. `ProtocolInv` proves
one invariant for every step but the shutdowns that lose sessions of others, `Shadows` that after those the rest of
the system still behaves as one whose table is whole, and `Runs` draws the guarantees for every state of every run.
`RowHistory` says what may become of the row of a session or an agent in the course of a run, `Progress` that nobody
gets stuck, and `SessionRun` is the life of one session from its request to its end, after which everything is as
before.

**The x64 inline hook.** `X64Decode` is the length decoder, `InlineHook` the prologue relocator over byte arrays.
`X64Format` says which instructions there are, printed to bytes, and that the decoder reads exactly these;
`PrintedHook` says of them what the relocator does. RIP-relative addressing is that of section 2.2.1.6 of volume 2 of
the Intel Software Developer's Manual. The header comment of the source says it aborts on RIP-relative operands and
relative calls; the code relocates them, and the model follows the code.

**The pooled linked list.** `LinkedLists`: a live and a free chain over the nodes of the list's own blocks. A pop that
dereferences nil is an outcome of every append, and exactly when it comes is proved.

**The life of a session and of its agent's tasks.** `SessionLife`: lock, connection tasks, wait group, error channel
and closing goroutine as a state machine. `SessionOrder`: what its steps leave when a process exits at once.
`AgentTasks`: the agent's own task manager at shutdown.

**The rgpu wire protocol.** `Wire` holds the record layout, the C writer and reader and the Vulkan renderer's reader;
`Serializer` the C++ and Python encoders and the frame; `Render` the two renderers, from the bytes of a frame to the
picture; `Rendezvous` the pairing and relay.

**The composite parser and the percentiles.** `Composite` parses what section 8.16.6 of the PostgreSQL documentation
prints; `Percentiles` folds the GPUs into histograms and walks them.

`Words`, `Bytes` and `Storage` are what the others stand on: 64-bit arithmetic, little-endian integers, the slice
iterator and the VRAM totals.

## What turned out false of the code

* `Find` has no break after a match, so one requirement can take several GPUs (`GpuSpec.FindOverAllocates`). For every
  map order it chooses one distinct accepting GPU per requirement exactly when as many GPUs accept something as there
  are requirements, and each GPU accepts, at the same charge, every requirement in whose place it may end up
  (`FindIntent.FindIntentIff`). That every requirement is the first accepted one of exactly one GPU is more than
  enough for that (`GpuSpec.FindMeetsIntent`), and not needed (`FindIntent.EqualsServed`).
  `GpuSets.GpuSet.FindWithBreak` is the loop with the break.
* An agent that shuts down deletes exactly its own sessions only when it has one, or none while the session table is
  empty (`ControllerInv.CloseMeetsIntentIff`): `DeleteAll` over a uuid index takes the whole table when it is given no
  id and fails when it is given two. The shutdown keeps the storage invariant exactly when it fails, or the agent has
  a session, or no other agent has one (`ControllerInv.CloseKeepsIff`); `ControllerInv.CloseTakesOthersSession` shows
  an agent losing its session. The removal of missing agents fails likewise with two or more
  (`Memdb.StorageDriver.RemoveMissingAgents`).
* A scheduling pass returns an error, on which backend.go:34 ends the scheduler, exactly when the last session of its
  queue that asks for no GPU or has an agent to ask asks for none, or is not placed and the last agent it asked met its
  requirements but not with its GPUs (`Backend.Pass`, `Backend.Update`). An ordinary request for more than any single
  GPU has does so (`Backend.FullAgentFails`), as does one for no GPU (`Backend.NoGpuFails`).
* The scheduler panics, which ends the controller, exactly when it assigns to an agent that has gone since the pass read
  it, or assigns or cancels a session that has gone (`Runs.CrashesIff`). Without shutdowns that lose sessions of others
  only the former happens (`Runs.GuardedCrashesIff`), and it does (`Runs.RemovedMidPass`); with one the latter happens
  too (`Runs.ClosedMidPass`).
* A finished session is reported active exactly when its closed event was pushed before its active one
  (`Nodes.DrainLosesIff`), which can happen to any session (`Nodes.EndsUnannounced`). Its agent will not report it
  closed any more, so the controller keeps it, and its VRAM with it, for good (`Runs.LeftForGood`).
* A connection is reported closed before it is reported created exactly when its watch reports first, and stays in its
  session's table when its watch deletes it before it is stored (`SessionOrder.ClosedFirstIff`,
  `SessionOrder.StaleIff`). A process that exits at once does both (`SessionOrder.QuickExit`), and later calls with its
  id are sent to it (`SessionOrder.StaleServed`).
* `popFreeNode` dereferences nil when it meets a lone free node. With single appends and removals that happens exactly
  when the calls open with 64 appends (`LinkedLists.RunCalls`), and when a slice is appended to a new list exactly from
  64 elements on (`LinkedLists.NewListOf`).
* `memdb.CancelSession` never inserts what it computes, so it changes nothing; the intended update of both copies is
  modelled beside it and keeps the storage invariant too (`ControllerInv.CancelKeeps`). With it, a session cancelled
  while a pass holds it would be assigned all the same (`RowHistory.CancelledMidPass`), which is the only way a closed
  session is opened again (`RowHistory.ReopensIff`).
* A session's task added to the agent's task manager after `Wait` has closed its error channel panics at its result,
  one added before `Wait` went past its wait group never does, and one added in between may
  (`AgentTasks.SendPanicsIff`, `AgentTasks.ClosingGoesEitherWay`). A tick that was under way when the agent's context
  ended adds such a task (`AgentTasks.LateTickPanics`), and so does any tick after a failed session has ended the
  manager's context alone (`AgentTasks.FailedSessionPanics`).
* A target of the relocated prologue inside the function still means the original code exactly when it is not among the
  14 overwritten bytes, or these are what they were (`InlineHook.TargetsStandIff`); a prologue that jumps to itself
  comes to the hook instead (`InlineHook.SelfJumpMeetsHook`).
* Printing and parsing a composite row gives the row back exactly when it has a field and no field is the literal
  NULL (`Composite.RoundTripIff`). A printed row cut short never reads as a row, but runs into an index out of range
  instead of the intended error exactly when the cut is not where a field begins (`Composite.CutNeverReads`).
* The two batch readers agree exactly when no header ends its arguments past 2^32 (`Wire.ReadersAgreeIff`); of a single
  header that ends them at 2^32 the C reader gives its record for ever (`Wire.WrappingHeaderRepeats`). The writer's test
  means that the record fits exactly when its end does not wrap into the buffer (`Wire.AcceptsMeansFitsIff`).
* A C++ frame parses as its whole payload exactly when the payload is shorter than 2^32 bytes
  (`Serializer.FrameRoundTrip`).
* The two renderers show the same picture of a batch over one texture exactly when it presents, something was cleared by
  then, and the presented colour in the texture's format is the last cleared colour in Vulkan's
  (`Render.RenderersAgreeIff`). A texture of another byte order parts them (`Render.ByteOrderParts`), and so does a
  later clear of another colour (`Render.ClearAfterPresent`).
* The D3D11 renderer does not check a frame's payload length. Of a frame cut short it reads past the end, unless only
  unread bytes of the last command's arguments are missing (`Render.TruncatedFrame`). The Vulkan renderer ignores the
  length, and draws what stands behind the payload too (`Render.ExtendedFrame`).
* The in-memory driver's percentile walk starts from zero instead of the smallest key. Its record differs from the
  Postgres driver's exactly when some rank is zero and no GPU has less than a whole gigabyte free
  (`Percentiles.ZeroStartDiffersIff`), as with one GPU (`Percentiles.OneGpuZero`).
* The utilisation of a GPU name, and in the in-memory driver its power too, is divided by the number of all GPUs, which
  gives the mean of the name's own exactly when there are no others or the sum is zero (`Percentiles.NameMeanIff`); two
  names at 50 are given 25 (`Percentiles.TwoNames`).

## Model

| member | source | states |
|---|---|---|
| GpuSpec.FindChargesWithinFree | pkg/gpu/gpu.go:143-170 | for every map order, Find charges a GPU no more than was free on it |
| GpuSpec.FindChargeDetermined | pkg/gpu/gpu.go:143-170 | what each GPU is charged does not depend on the map order |
| GpuSpec.FindSizeIsTakers | pkg/gpu/gpu.go:143-174 | a selection has one entry for every GPU that accepts some requirement |
| GpuSpec.FindTakes | pkg/gpu/gpu.go:149-170 | exactly the GPUs are taken that have the VRAM free for some requirement that names their PCI bus or none, each charged the first such requirement |
| GpuSpec.TakersMeet | pkg/gpu/gpu.go:172-174 | the GPUs whose number decides whether Find fails are those |
| GpuSpec.FindTakesOnePerRequirementIff | pkg/gpu/gpu.go:172-174 | when a selection is as long as the requirement list, by the GPUs that accept one |
| GpuSpec.FindServesEachIff | pkg/gpu/gpu.go:137-170 | entry k was taken for requirement k throughout iff every requirement is the first accepted one of exactly one GPU |
| GpuSpec.FindMeetsIntent | pkg/gpu/gpu.go:137-170 | under that condition, which is sufficient, the selection is one distinct accepting GPU per requirement |
| FindIntent.FindIntentIff | pkg/gpu/gpu.go:137-174 | every selection of every map order is one distinct accepting GPU per requirement iff accepting GPUs and requirements are as many and each GPU suits every requirement in whose place it may end up |
| FindIntent.PlaceInWindow | pkg/gpu/gpu.go:149-170 | an entry's place lies between the numbers of GPUs taken before and up to its requirement |
| FindIntent.EqualsServed | pkg/gpu/gpu.go:149-170 | two equal GPUs serve two equal requirements, though the first requirement is the first of both |
| GpuSpec.FindOverAllocates | pkg/gpu/gpu.go:149-170 | an input on which one requirement takes two GPUs |
| GpuSpec.FindKeepsCapacity | pkg/gpu/gpu.go:176-183 | adding a Find result to the outstanding selections keeps every GPU within its VRAM |
| GpuSpec.FreeAfterIssue | pkg/gpu/gpu.go:192-199 | debiting a selection leaves capacity less outstanding charges, modulo 2^64 |
| GpuSpec.FreeAfterRelease | pkg/gpu/gpu.go:212-216 | crediting it back leaves capacity less the charges still outstanding |
| GpuSets.GpuSet.New | pkg/gpu/gpu.go:37-49 | a set with every GPU wholly free and nothing outstanding |
| GpuSets.GpuSet.Find | pkg/gpu/gpu.go:132-184 | fails exactly when too few GPUs accept a requirement, charging nothing; else hands out a Find result and charges it |
| GpuSets.GpuSet.TakeMatching | pkg/gpu/gpu.go:149-169 | one requirement takes every unselected GPU that accepts it, in any map order |
| GpuSets.GpuSet.FindSelection | pkg/gpu/gpu.go:143-170 | the loops select every GPU that accepts some requirement once, for the first it accepts, in requirement order |
| GpuSets.GpuSet.FindWithBreak | pkg/gpu/gpu.go:137-184 | with a break after each match, success means one distinct accepting GPU per requirement, and failure that the GPUs taken one for each requirement before some one leave none that accepts it |
| GpuSets.OneEachMeets | pkg/gpu/gpu.go:149-170 | its success by the fields: distinct GPUs, each with the VRAM free for its requirement and on the PCI bus that it names, if any |
| GpuSets.StarvedMeets | pkg/gpu/gpu.go:172-174 | its failure by the fields: such GPUs for the requirements before some one, and no other that has what that one needs |
| GpuSets.GpuSet.Select | pkg/gpu/gpu.go:186-205 | the chosen GPUs are charged whatever is free, and the ledger gains exactly that selection |
| GpuSets.SelectedGpuSet.Release | pkg/gpu/gpu.go:207-217 | every GPU gets back what the selection charged, and the ledger entry is released |
| Storage.DefaultIterator.Next | cmd/controller/storage/storage.go:63-71 | the iterator yields the remaining objects in order and then stays |
| Storage.SumVram | cmd/controller/storage/storage.go:112-119 | the sum over the GPUs modulo 2^64 |
| MemdbSpec.VramAdds | cmd/controller/storage/storage.go:112-119 | that sum is additive, and of one GPU its VRAM |
| Storage.SumVramRequired | cmd/controller/storage/storage.go:121-128 | the sum over the requirements modulo 2^64 |
| MemdbSpec.RequiredAdds | cmd/controller/storage/storage.go:121-128 | likewise for requirements |
| MemdbSpec.ScanIsDeclarative | cmd/controller/storage/memdb/memdb.go:305-340 | the loop over the agent's ids leaves the surviving sessions, applies the states to the table and credits what closed |
| Memdb.StorageDriver.RegisterAgent | cmd/controller/storage/memdb/memdb.go:247-265 | a new row with no session and all its VRAM free |
| Memdb.StorageDriver.RequestSession | cmd/controller/storage/memdb/memdb.go:377-399 | a queued row with the requirements' total |
| Memdb.StorageDriver.AssignSession | cmd/controller/storage/memdb/memdb.go:401-444 | both copies and the running total change in one transaction, or nothing does |
| Memdb.StorageDriver.UpdateAgent | cmd/controller/storage/memdb/memdb.go:283-375 | the states are applied to both copies; a closing agent goes with its one session, or with the whole session table if it has none; or nothing changes |
| Memdb.StorageDriver.RebuildSessions | cmd/controller/storage/memdb/memdb.go:302-340 | the rebuilt ids and copies stay parallel and are those of the value-level scan |
| Memdb.StorageDriver.CancelSession | cmd/controller/storage/memdb/memdb.go:446-464 | as written it succeeds when the session exists and changes nothing |
| Memdb.StorageDriver.SetAgentsMissing | cmd/controller/storage/memdb/memdb.go:565-594 | exactly the silent active agents become missing |
| Memdb.StorageDriver.RemoveMissingAgents | cmd/controller/storage/memdb/memdb.go:596-628 | a single silent missing agent goes, and with two or more the sweep fails and none does |
| Memdb.StorageDriver.GetAvailableAgentsMatching | cmd/controller/storage/memdb/memdb.go:523-542 | each active agent with enough VRAM once, and no other |
| Memdb.StorageDriver.GetQueuedSessions | cmd/controller/storage/memdb/memdb.go:544-563 | each queued session once, and no other |
| ControllerInv.InitKeeps | cmd/controller/storage/memdb/memdb.go:94-97 | empty tables satisfy the storage invariant |
| ControllerInv.RegisterKeeps | cmd/controller/storage/memdb/memdb.go:247-265 | registering an agent keeps the storage invariant |
| ControllerInv.RequestKeeps | cmd/controller/storage/memdb/memdb.go:377-399 | requesting a session keeps it |
| ControllerInv.AssignKeeps | cmd/controller/storage/memdb/memdb.go:401-444 | assigning GPUs that fit keeps mirror, accounting and capacity |
| ControllerInv.UpdateKeeps | cmd/controller/storage/memdb/memdb.go:283-353 | any agent update that reports no session queued keeps it, and never panics |
| ControllerInv.CreditBalances | cmd/controller/storage/memdb/memdb.go:324-329 | what an update credits is what its closed sessions required |
| ControllerInv.CloseMeetsIntentIff | cmd/controller/storage/memdb/memdb.go:354-371 | a close removes the agent and its own live sessions and nothing else iff it has one session, or none while the table is empty |
| ControllerInv.CloseKeepsIff | cmd/controller/storage/memdb/memdb.go:354-371 | a close fails iff there are two sessions or more, and else keeps the invariant iff the agent has a session or no other agent has one |
| ControllerInv.CloseTakesOthersSession | cmd/controller/storage/memdb/memdb.go:354-371 | two agents on which the close of the idle one takes the other's session out of the table |
| ControllerInv.SweepsKeep | cmd/controller/storage/memdb/memdb.go:565-628 | both sweeps keep it, where they succeed |
| ControllerInv.CancelKeeps | cmd/controller/storage/memdb/memdb.go:446-464 | the update CancelSession intends, on both copies, keeps it |
| Backend.MatchFits | cmd/controller/backend/backend.go:81-92 | GPUs found after replaying an agent's sessions fit beside them on every GPU |
| Backend.IsSubset | cmd/controller/backend/backend.go:48-57 | the key by key comparison decides inclusion of maps |
| Backend.ReplaySessions | cmd/controller/backend/backend.go:81-88 | replaying never panics and shows each GPU less what the sessions charge |
| Backend.AgentMatches | cmd/controller/backend/backend.go:75-96 | GPUs are returned iff the agent is eligible and enough GPUs accept a requirement, an error iff only the GPUs are missing; a match means the pool asked for, every label asked for and every taint tolerated, and none means that one of these or the GPUs fails |
| Backend.AssignShrinks | cmd/controller/backend/backend.go:136-156 | placing one session never makes another placeable |
| Backend.Schedule | cmd/controller/backend/backend.go:136-156 | a session is placed with GPUs that fit, or no agent could take it and nothing changed; then it is an error iff the last agent asked was eligible and full, or nobody was asked and there was one before |
| Backend.Pass | cmd/controller/backend/backend.go:122-160 | after an uninterrupted pass every session of the snapshot is placed, invalid, or fits nowhere; it is an error iff the last of them that is invalid or had an agent to ask is invalid, or waits and the last agent it asked was eligible and full |
| Backend.Update | cmd/controller/backend/backend.go:106-161 | a whole tick keeps the storage invariant and only places queued sessions; unless a removal fails or the context ends it leaves no valid one that an agent could take, and its error is that of the pass over the queue |
| Backend.FullAgentFails | cmd/controller/backend/backend.go:143-148 | one agent with two GPUs of 4 and a session that asks for one of 8: the pass ends in an error |
| Backend.OneQueuedOk | cmd/controller/storage/memdb/memdb.go:247-265 | the database of these two examples is in order, and the session its queue |
| Backend.NoGpuFails | cmd/controller/backend/backend.go:129-134 | the same agent and a session that asks for no GPU: the pass ends in an error |
| AgentSpec.HeldSubset | cmd/agent/app/agent.go:222-230 | claims drawn from a record charge a GPU no more than the record |
| AgentSpec.MergeSessionEvent | cmd/agent/app/controller.go:147-154 | receiving a session event changes exactly its session's state in the last-record view |
| AgentSpec.MergeConnectionEvent | cmd/agent/app/controller.go:156-163 | receiving a connection event changes exactly its own record |
| AgentProcess.Agent.RegisterSession | cmd/agent/app/agent.go:222-241 | the session's GPUs are debited, the session is added with them and reported active, the others keep theirs |
| AgentProcess.Agent.CancelSession | cmd/agent/app/agent.go:185-196 | an error exactly when the session is unknown |
| AgentProcess.Agent.FinishSession | cmd/agent/app/session.go:90-98 | the GPUs are credited, the session removed and reported closed |
| AgentProcess.Agent.DrainUpdates | cmd/agent/app/controller.go:142-168 | whatever channel each round reads, the map holds the last state and last connection record per id |
| AgentProcess.Agent.FollowOne | cmd/agent/app/controller.go:131-137 | an assigned session is registered and reported, a canceling one cancelled, with an error exactly when it is unknown |
| AgentProcess.Agent.Follow | cmd/agent/app/controller.go:130-138 | exactly the assigned sessions shown are registered and reported, in order, and their GPUs taken; exactly the canceling ones known when their turn comes are cancelled, with an error iff one is not |
| AgentProcess.Agent.Tick | cmd/agent/app/controller.go:123-178 | an undisturbed tick registers exactly the sessions shown as assigned and cancels the canceling ones known here, with an error iff one is not; the update it sends is what both channels then held, after which the controller shows none as assigned |
| Nodes.RegisterWithinFree | cmd/agent/app/agent.go:222-230 | the next session to register needs no more of a GPU than is free |
| Nodes.PollOk | cmd/agent/app/controller.go:123-138 | reading the record sets up only sessions not registered before |
| Nodes.PollTakes | cmd/agent/app/controller.go:130-134 | it sets up exactly the sessions shown as assigned, with the GPUs they were given |
| Nodes.RegisterOk | cmd/agent/app/agent.go:222-230 | registering one and starting its task keeps the agent's invariant |
| Nodes.AnnounceOk | cmd/agent/app/agent.go:182 | so does reporting it active, after any steps of its task |
| Nodes.ReleaseOk | cmd/agent/app/session.go:94-96 | releasing a session keeps it |
| Nodes.DrainOk | cmd/agent/app/controller.go:142-168 | draining the channels keeps it |
| Nodes.DrainReports | cmd/agent/app/controller.go:142-168 | the update has exactly the sessions with news, each with the state pushed last for it or none |
| Nodes.SendOk | cmd/agent/app/controller.go:170-175 | the controller's record after the update still matches the agent |
| Nodes.DrainLosesIff | cmd/agent/app/controller.go:142-168 | a finished session is reported active iff its closed event was pushed before its active one, and the agent is then done with it |
| Nodes.EndsUnannounced | cmd/agent/app/agent.go:174-183 | any session may end before it is reported active |
| ProtocolInv.SchedulerKeeps | cmd/controller/backend/backend.go:117-160 | every step of the scheduler but an assignment keeps the system invariant |
| ProtocolInv.NodeKeeps | cmd/agent/app/controller.go:115-178 | so does every local step of an agent |
| ProtocolInv.AssignInv | cmd/controller/backend/backend.go:140-153 | an assignment made from an older snapshot keeps it |
| ProtocolInv.SendInv | cmd/agent/app/controller.go:170-175 | a delivered update keeps it |
| ProtocolInv.CloseInvIff | cmd/agent/app/controller.go:117-121 | an agent's last update keeps it iff the agent has a session, or neither another agent nor the scheduler has one to lose |
| ProtocolInv.SweepInv | cmd/controller/storage/memdb/memdb.go:565-628 | the sweeps keep it even for agents still at work |
| ProtocolInv.IntendedCancelInv | cmd/controller/storage/memdb/memdb.go:446-464 | the intended cancel keeps it |
| Shadows.OkKeeps | cmd/agent/app/controller.go:117-121 | every step of anyone, shutdowns included, keeps a system in order but for lost sessions |
| Shadows.ScanShadow | cmd/controller/storage/memdb/memdb.go:305-340 | an update that finds its rows in part of the table does what it does over the whole |
| Shadows.CloseShadow | cmd/controller/storage/memdb/memdb.go:354-371 | a shutdown loses rows and nothing else |
| Runs.ActionKeepsIff | cmd/agent/app/controller.go:117-121 | of all steps anyone may take, exactly the shutdowns that take sessions of others break the invariant |
| Runs.GuardedReachable | cmd/controller/backend/backend.go:106-161 | the system invariant, with mirror and account, holds in every state of every run without such a shutdown |
| Runs.Reachable | cmd/controller/backend/backend.go:106-161 | in every state of every run the system is in order but for sessions lost from the table |
| Runs.LostIff | cmd/controller/storage/memdb/memdb.go:354-371 | a session leaves the table iff an agent shuts down that has none, or it alone |
| Runs.AgentSafety | cmd/agent/app/agent.go:174-254 | in every run, an agent's GPUs show capacity less what it holds, no session is registered twice, and it holds only what the controller records |
| Runs.RegisterNeverUnderflows | pkg/gpu/gpu.go:192-199 | in every run, the agent's unguarded subtraction never wraps |
| Runs.RegisteredByOne | cmd/agent/app/controller.go:130-138 | in every run, no two agents register one session |
| Runs.ControllerSafety | cmd/controller/storage/memdb/memdb.go:412-440 | in every run, charges within VRAM, parallel ids, each once, and copies that are the relational query's rows as far as the rows are there; the running total is that of a table with every row, and exact while the agent's rows are there |
| Runs.SessionsSitRight | cmd/controller/backend/backend.go:48-77 | in every run, a recorded session whose row is there sits in the pool and with the labels it asks for, tolerates every taint of its agent, and shows its address |
| RowHistory.RowsAsRequested | cmd/controller/storage/memdb/memdb.go:377-399 | in every run, a session's row shows the version and the VRAM its requirements ask for, and until it is assigned no address and no GPU |
| RowHistory.AssignmentIsFinal | cmd/controller/storage/memdb/memdb.go:401-444 | in every run, what a session was asked for never changes, nor its agent, address and GPUs once it has them, and a lost row never comes back |
| RowHistory.PlacedIff | cmd/controller/storage/memdb/memdb.go:401-444 | in every run, a session is placed exactly by the scheduler's assignment, with the address of the agent chosen and the GPUs chosen |
| RowHistory.ReopensIff | cmd/controller/storage/memdb/memdb.go:401-464 | in every run, a closed session stays closed unless a pass that read it before assigns it, and always if it was ever assigned |
| RowHistory.CancelledMidPass | cmd/controller/storage/memdb/memdb.go:446-464 | a run in which the intended cancel closes a session that a pass holds, and the pass assigns it |
| RowHistory.CancelIs | cmd/controller/storage/memdb/memdb.go:446-464 | the intended cancel closes an unassigned session, marks an assigned one and touches no other |
| RowHistory.AgentEnters | cmd/controller/storage/memdb/memdb.go:247-265 | an agent enters the table by registering, active, with no session and all its VRAM free |
| RowHistory.AgentSteps | cmd/controller/storage/memdb/memdb.go:283-301 | what an agent said of itself never changes; it becomes missing only by a sweep that finds it active and silent, and active only by its report |
| RowHistory.AgentLeavesIff | cmd/controller/storage/memdb/memdb.go:596-628 | it leaves exactly by a sweep that finds it, and no other, silent and missing, or by its shutdown with at most one session |
| Progress.PassShrinks | cmd/controller/backend/backend.go:106-161 | every step of a pass brings its end nearer, and no step of anyone else changes where it is |
| Progress.PassEnds | cmd/controller/backend/backend.go:106-161 | from every state of every run the pass can be brought to its end by its own steps, at most two for each session of its queue and two more |
| Progress.PassStarts | cmd/controller/backend/backend.go:106-118 | a scheduler at rest can begin a pass over the queued sessions |
| Progress.TickShrinks | cmd/agent/app/controller.go:123-178 | every step of an agent's tick brings its end nearer, and no step of anyone else changes where it is |
| Progress.TickEnds | cmd/agent/app/controller.go:123-178 | from every state of every run the tick of an agent the controller knows can be brought to its end by its own steps, at most two for each session still to register and three more |
| Progress.AgentMay | cmd/agent/app/controller.go:115-128 | an agent at rest can begin the next tick or shut down, and stop at any time |
| Progress.SessionMayEnd | cmd/agent/app/session.go:90-98 | a session held can end at any time |
| Runs.CreditedAtMostOnce | cmd/controller/storage/memdb/memdb.go:324-329 | in every run, a session's VRAM is credited back at most once however often it is reported closed |
| RowHistory.CreditCounts | cmd/controller/storage/memdb/memdb.go:324-329 | a session is credited once more exactly when an update of an agent that records it is applied and closes it |
| Runs.SchedulerNeverPanics | pkg/gpu/gpu.go:132-190 | in every run, neither panic guard of the allocator fires while the scheduler works |
| Runs.AssignNeverUnderflows | cmd/controller/storage/memdb/memdb.go:431-434 | in every run, an assignment that finds its agent and session takes neither the running total below zero nor a GPU above its VRAM |
| Runs.LeftForGood | cmd/agent/app/controller.go:142-175 | in every run, a session its agent is done with without having reported it closed stays in its record for good |
| Runs.CrashesIff | cmd/controller/storage/memdb/memdb.go:401-417 | in every run, a step crashes the controller iff it assigns to an agent that has gone, or assigns or cancels a session that has |
| Runs.GuardedCrashesIff | cmd/controller/storage/memdb/memdb.go:401-417 | where no session is lost, iff it assigns to an agent that has gone |
| Runs.RemovedMidPass | cmd/controller/storage/memdb/memdb.go:596-628 | a run in which an agent is removed as missing between read and assignment, and the assignment crashes the controller |
| Runs.SmallMatch | cmd/controller/backend/backend.go:75-96 | an agent, a request and a selection as these two runs assume |
| Runs.ClosedMidPass | cmd/controller/storage/memdb/memdb.go:354-371 | a run in which an idle agent shuts down in between, and the assignment to another finds no session and crashes it |
| SessionRun.LifeOfASession | cmd/agent/app/controller.go:115-178 | for every agent and every request it can take, a run in which the session is placed, registered, active, finished and closed; at its end record, VRAM account and GPUs are as at the beginning |
| X64Decode.DecodedShape | rgpu/proxy-d3d12/src/rgpu_inlinehook.h:28-83 | a decoded length is positive and within the bytes, with at most one displacement field, inside it |
| X64Decode.DecodeStable | rgpu/proxy-d3d12/src/rgpu_inlinehook.h:28-83 | changing only the bytes of the field changes nothing the decoder says |
| X64Format.PrintDecodes | rgpu/proxy-d3d12/src/rgpu_inlinehook.h:28-83 | the decoder accepts every printed instruction with any bytes behind it, at its length, with the place of a RIP-relative displacement exactly when it has one and of a branch's exactly for a branch |
| X64Format.AcceptsIff | rgpu/proxy-d3d12/src/rgpu_inlinehook.h:28-83 | it accepts bytes iff they begin with the print of an instruction of the format, and then as that instruction |
| InlineHook.DecodeAt | rgpu/proxy-d3d12/src/rgpu_inlinehook.h:28-83 | the index-advancing decoder computes the decoding of the bytes |
| InlineHook.MeasurePrologue | rgpu/proxy-d3d12/src/rgpu_inlinehook.h:110-117 | the measuring loop finds the instructions that cover 14 bytes, or that there are none |
| InlineHook.MeasuredFits | rgpu/proxy-d3d12/src/rgpu_inlinehook.h:111-117 | measured instructions are ordered, lie in the code and end at or past byte 14 |
| InlineHook.MoveField | rgpu/proxy-d3d12/src/rgpu_inlinehook.h:123-136 | a field gets the displacement that reaches the same address, or the move is refused |
| InlineHook.FixUp | rgpu/proxy-d3d12/src/rgpu_inlinehook.h:121-137 | the fix-up loop computes the relocated prologue or fails |
| InlineHook.RelocateIff | rgpu/proxy-d3d12/src/rgpu_inlinehook.h:121-137 | it fails exactly when some field cannot reach its target |
| InlineHook.TrampolineMeansTheSame | rgpu/proxy-d3d12/src/rgpu_inlinehook.h:107-140 | the trampoline has the same boundaries, instructions and absolute targets, then jumps to the original boundary at or past byte 14 |
| PrintedHook.TrampolineIff | rgpu/proxy-d3d12/src/rgpu_inlinehook.h:107-140 | there is a trampoline iff the code begins with at most twelve instructions of the format that cover 14 bytes, no fewer doing so, and whose displacements still fit |
| PrintedHook.TrampolineIs | rgpu/proxy-d3d12/src/rgpu_inlinehook.h:107-140 | it is the print of these instructions, each relative displacement moved by the distance, and the jump behind them |
| PrintedHook.TargetsKept | rgpu/proxy-d3d12/src/rgpu_inlinehook.h:121-137 | each of them refers to the address it referred to before |
| PrintedHook.ListingIs | rgpu/proxy-d3d12/src/rgpu_inlinehook.h:28-83 | disassembled anywhere, a prologue lists what each instruction is apart from its relative displacement, and the address it refers to |
| InlineHook.TargetsStandIff | rgpu/proxy-d3d12/src/rgpu_inlinehook.h:119-146 | the trampoline's targets within the hooked function read as the original code iff the prologue refers to none of the overwritten bytes, but to such as are the same |
| InlineHook.SelfJumpMeetsHook | rgpu/proxy-d3d12/src/rgpu_inlinehook.h:119-146 | a prologue on which they do not |
| InlineHook.Hook | rgpu/proxy-d3d12/src/rgpu_inlinehook.h:107-148 | succeeds exactly when page, protection and relocation do; on failure the target keeps its bytes |
| Bytes.Le8Places | rgpu/proxy-d3d12/src/rgpu_inlinehook.h:140-143 | the address behind a jump, its eight bytes from the lowest |
| InlineHook.HookedIsRefused | rgpu/proxy-d3d12/src/rgpu_inlinehook.h:111-117 | a prologue that starts with the hook's own jump cannot be measured |
| InlineHook.HookTwice | rgpu/proxy-d3d12/src/rgpu_inlinehook.h:107-148 | hooking a hooked target fails and changes nothing |
| InlineHook.AllocNear | rgpu/proxy-d3d12/src/rgpu_inlinehook.h:91-101 | the page is the first candidate that succeeds, nearer ones first and of two as near the lower one first, and every one is tried before an allocation anywhere; a page found near lies within 0x5FFFFFFF of the target, around the ends of the address space if need be |
| InlineHook.CandidatesAre | rgpu/proxy-d3d12/src/rgpu_inlinehook.h:93-94 | the candidates of a round are the pages as many before and after the one the target lies in |
| InlineHook.NearSearchDistance | rgpu/proxy-d3d12/src/rgpu_inlinehook.h:93-94 | both candidates of a round lie within 0x5FFFFFFF |
| InlineHook.NearPageReaches | rgpu/proxy-d3d12/src/rgpu_inlinehook.h:91-136 | with such a page, fields of at most 0x20000000 never fail the range check |
| LinkedLists.LinkedList.EnsureCapacity | pkg/utilities/linkedList.go:64-92 | at most one block more, both chains and the contents kept; where the free nodes do not exceed the elements, the last of them leads nowhere |
| LinkedLists.NewBlock | pkg/utilities/linkedList.go:66-84 | the nodes of a block are linked in order behind the old free tail |
| LinkedLists.LinkedList.PopFreeNode | pkg/utilities/linkedList.go:94-107 | the first free node is taken and both chains stay linked; a lone one that leads nowhere dereferences nil |
| LinkedLists.LinkedList.Append | pkg/utilities/linkedList.go:109-129 | dereferences nil iff it meets a lone free node; else the contents gain the element, the chains stay disjoint and cover the nodes |
| LinkedLists.LinkedList.AppendMany | pkg/utilities/linkedList.go:131-153 | dereferences nil iff the free nodes, after one block at most, do not exceed the elements; else the contents gain the whole sequence |
| LinkedLists.LinkedList.RemoveNode | pkg/utilities/linkedList.go:164-195 | the element at its place goes, the node joins the free chain with its N and the count as they were |
| LinkedLists.LinkedList.Remove | pkg/utilities/linkedList.go:155-162 | the returned iterator goes on with the next node |
| LinkedLists.NodeIterator.Next | pkg/utilities/linkedList.go:33-44 | moves to the next place, and says whether there is one |
| LinkedLists.LinkedList.Filter | pkg/utilities/linkedList.go:33-44 | a loop of Next and Remove visits every original node once, in order, and leaves the filtered contents |
| LinkedLists.UnsafeOnlyAt63 | pkg/utilities/linkedList.go:64-129 | in such runs an Append is unsafe only at count 63 with nothing removed |
| LinkedLists.LinkedList.LoneFree | pkg/utilities/linkedList.go:94-107 | the N of a lone free node is nil, or stale and leads to a live node |
| LinkedLists.UnsafeIff64AppendsFirst | pkg/utilities/linkedList.go:64-195 | a run of single appends and removals meets a lone free node in a pop iff it opens with 64 appends |
| LinkedLists.RunCalls | pkg/utilities/linkedList.go:64-195 | any such run on a new list dereferences nil iff it opens with 64 appends |
| LinkedLists.NewListOf | pkg/utilities/linkedList.go:131-153 | a slice appended to a new list arrives whole up to 63 elements and dereferences nil from 64 on |
| SessionLife.Keeps | cmd/agent/app/session.go:79-161 | every step of calls, tasks and closer keeps the lock, wait group and event invariant |
| SessionLife.NeverPanics | pkg/task/task.go:59-106 | no task joins after Wait has begun, the counter never goes below zero, no send on the closed channel |
| SessionLife.NoPanicNext | pkg/task/task.go:59-106 | no step that adds a task, leaves the wait group or sends a result is possible when it would panic |
| SessionLife.LockProtects | cmd/agent/app/session.go:104-131 | while a call has the lock nobody sets the closed flag, and only the end of the group ends the context |
| SessionLife.CancelledIff | cmd/agent/app/session.go:104-110 | the context has ended iff the group ended or the session was cancelled while it was open |
| SessionLife.ClosesOnlyWhenEnded | cmd/agent/app/session.go:80-90 | the close begins only when the context has ended, and cancels it only when the group has |
| SessionLife.ReleasedOnceAfterAll | cmd/agent/app/session.go:92-94 | the GPUs are released at most once and only after every connection's tasks ended |
| SessionLife.SessionClosedLast | cmd/agent/app/session.go:96-158 | one SessionClosed, after every other event, when each connection was reported created and closed once |
| SessionLife.NeverStuck | pkg/task/task.go:59-79 | once the context has ended, a step that brings the close on is always enabled |
| SessionOrder.StaleIff | cmd/agent/app/session.go:139-158 | the table leads to a dead connection iff it was stored after its watch had taken it out, and then for good |
| SessionOrder.StaleServed | cmd/agent/app/session.go:112-131 | a call that looks up its id is then sent to it, and starts no other |
| SessionOrder.ClosedFirstIff | cmd/agent/app/session.go:143-158 | a connection is reported closed before created iff its watch comes to its report before the call does |
| SessionOrder.QuickExit | cmd/agent/app/session.go:139-158 | a run in which both happen |
| SessionOrder.WholeLife | cmd/agent/app/session.go:79-161 | a run in which a connection is made, served and ends, with every event once and in order and the GPUs released |
| SessionOrder.GroupCloses | cmd/agent/app/session.go:80-84 | the end of the group leads to the cancel |
| AgentTasks.Keeps | pkg/task/task.go:59-106 | every step of tick, tasks and Wait keeps the count of the wait group and that Wait passes it only when all tasks added in time have left |
| AgentTasks.SendPanicsIff | pkg/task/task.go:73-105 | a task's result never panics if the task was added before Wait went past its wait group, always if after Wait closed the channel, and in between iff Wait has closed it by then |
| AgentTasks.ContextsNest | pkg/task/task.go:40-74 | the manager's context has ended when the group's has, and when Wait waits for the tasks |
| AgentTasks.SpawnedOnTime | cmd/agent/app/session.go:79-99 | a closing task added by a session's task that is in time is in time |
| AgentTasks.PanicsOnlyLate | pkg/task/task.go:59-106 | a run has panicked iff some task sent on the closed channel, and each that did was added too late |
| AgentTasks.TickGoesOn | cmd/agent/app/controller.go:130-138 | a tick registers all it has read before it does anything else |
| AgentTasks.NoPollAfterEnd | cmd/agent/app/controller.go:115-128 | a tick with nothing left to register reads no more once the group's context has ended |
| AgentTasks.EndedForGood | cmd/agent/app/controller.go:115-178 | a tick that has ended stays so, and has ended the group |
| AgentTasks.FailedRequestEnds | cmd/agent/app/controller.go:124-128 | a failed request ends both contexts |
| AgentTasks.LateTickPanics | cmd/agent/app/controller.go:115-138 | a tick under way when the group's context ends registers a session whose result panics |
| AgentTasks.FailedSessionPanics | pkg/task/task.go:92-106 | a failed session ends the manager's context alone, and a session of a later tick panics |
| AgentTasks.ClosingGoesEitherWay | pkg/task/task.go:66-79 | two runs of a task added between wait group and closing, one that gets its result through and one that panics |
| Wire.AcceptsMeansFitsIff | rgpu/proto/rgpu_cmds.h:34-35 | the 32-bit test means that the record fits iff its end does not wrap into the buffer |
| Wire.BatchWriter.Cmd | rgpu/proto/rgpu_cmds.h:32-40 | a command that fits is appended to the batch and one refused leaves the buffer unchanged; the copy leaves the buffer iff the end passes 2^32 and wraps to within it |
| Wire.BatchReader.Next | rgpu/proto/rgpu_cmds.h:47-55 | the next of the commands, or how the reading stops: at the end, beyond the bytes there are, or at a record that wraps |
| Wire.WholeStream | rgpu/proto/rgpu_cmds.h:47-55 | told the number of bytes, the C reader gives the commands of the payload and goes back iff a header wraps |
| Wire.ExtendedReads | rgpu/proto/rgpu_cmds.h:44-55 | with bytes behind a batch, the C reader gives the batch and the Vulkan loop whatever they read as besides |
| Wire.TruncatedReads | rgpu/proto/rgpu_cmds.h:44-55 | told the length of a batch that was cut, the C reader gives its whole commands and what is left of the next, and stops within the bytes iff that was the last |
| Wire.NoWrapAgrees | rgpu/proto/rgpu_cmds.h:47-55 | where nothing wraps the C reader gives the records of the Vulkan loop, truncated buffers included |
| Wire.WrapReadsOn | rgpu/proto/rgpu_cmds.h:50-51 | where a header wraps, the C reader reads on past the end of the Vulkan loop |
| Wire.ReadersAgreeIff | rgpu/renderd/linux/rgpu_renderd_vk.cpp:51-61 | the two readers visit the same records iff no header the Vulkan loop reaches wraps |
| Wire.WrappingHeaderRepeats | rgpu/proto/rgpu_cmds.h:47-55 | a payload of one header in which the Vulkan loop finds nothing and the C reader the same record for ever |
| Wire.CutBatchReads | rgpu/proto/rgpu_cmds.h:47-55 | a batch cut anywhere reads back as the commands whole before the cut |
| Wire.WrittenReads | rgpu/proto/rgpu_cmds.h:29-55 | reading a written batch gives the accepted commands in order and then stops |
| Wire.BatchInjective | rgpu/proto/rgpu_cmds.h:32-40 | different command sequences have different bytes |
| Serializer.Device.Add | rgpu/proxy-d3d11/src/rgpu_serializer.cpp:5-11 | the C++ body is the batch of the commands recorded |
| Serializer.Device.CreateTexture2D | rgpu/proxy-d3d11/src/rgpu_serializer.cpp:13-18 | hands out the next handle and records the create command with it |
| Serializer.Device.CreateRenderTargetView | rgpu/proxy-d3d11/src/rgpu_serializer.cpp:20-24 | the view shares its texture's handle |
| Serializer.Device.ClearRenderTargetView | rgpu/proxy-d3d11/src/rgpu_serializer.cpp:37-40 | records the clear command |
| Serializer.Device.Present | rgpu/proxy-d3d11/src/rgpu_serializer.cpp:42-45 | records the present command |
| Serializer.Device.BuildBatch | rgpu/proxy-d3d11/src/rgpu_serializer.cpp:26-35 | the frame with its length cut to 32 bits; it is the frame the Python encoder builds of the same commands, which builds none from 2^32 bytes on |
| Serializer.HandlesDiffer | rgpu/proxy-d3d11/src/rgpu_serializer.cpp:13-14 | the first 2^32 handles are all different |
| Serializer.PyBatchIsBatch | rgpu/controller/rgpu_wire.py:39-50 | the Python encoder emits the C layout's bytes, and fails exactly when a length does not fit |
| Serializer.FrameParses | rgpu/controller/rgpu_wire.py:27-36 | a frame with a longer or shorter tail parses with the payload cut alike, at most at its length modulo 2^32 |
| Serializer.FrameRoundTrip | rgpu/controller/rgpu_wire.py:27-36 | a frame parses as its own type, session and sequence, and as its whole payload iff that fits 32 bits |
| Serializer.FrameCarriesCommands | rgpu/controller/rgpu_wire.py:27-40 | both readers give the recorded commands of a parsed frame and nothing else |
| Render.D3dRenderer.RenderBatch | rgpu/renderd/win/rgpu_renderd_win.cpp:29-80 | checks the frame, then interprets the commands its reader gives in order, up to the first failure or to where reading leaves the bytes |
| Render.FrameRefused | rgpu/renderd/win/rgpu_renderd_win.cpp:30-32 | by the bytes: which frames are refused, and that nothing is drawn of them |
| Render.TextureIsItsCommands | rgpu/renderd/win/rgpu_renderd_win.cpp:40-58 | after a batch that does not fail, size and format of each texture are those of the last CREATE on its own handle and its colour that of the last CLEAR on it since; commands on other handles make no difference |
| Render.PictureIsLastPresented | rgpu/renderd/win/rgpu_renderd_win.cpp:59-74 | the picture is that of the last presented handle as it was then |
| Render.FailsAt | rgpu/renderd/win/rgpu_renderd_win.cpp:50-61 | a failed batch stops at one command with everything before it done, with an unknown texture iff that command clears or presents a handle never created |
| Render.SummaryIs | rgpu/renderd/linux/rgpu_renderd_vk.cpp:51-60 | the Vulkan summary of any batch: size of the last whole CREATE, colour of the last whole CLEAR, whatever their handles |
| Render.ParseBatch | rgpu/renderd/linux/rgpu_renderd_vk.cpp:41-62 | checks the frame, then computes the one-pass summary of everything behind the header |
| Render.InterpreterIsSummary | rgpu/renderd/win/rgpu_renderd_win.cpp:40-74 | over one texture, the interpreter's texture is the summary in the texture's format, its picture that of the summary up to the last PRESENT |
| Render.RenderersAgreeIff | rgpu/renderd/linux/rgpu_renderd_vk.cpp:146-172 | both show the same iff the batch presents, something was cleared by then, and the presented colour in the texture's format is the last colour cleared in Vulkan's |
| Render.RenderersAgree | rgpu/renderd/linux/rgpu_renderd_vk.cpp:77-78 | with the last clear presented, only a format that draws the colour differently parts them |
| Render.ClearAfterPresent | rgpu/renderd/win/rgpu_renderd_win.cpp:50-74 | after a further clear they agree iff the two colours are drawn alike |
| Render.ByteOrderParts | rgpu/renderd/win/rgpu_renderd_win.cpp:43-72 | a red texture of format 87 gives the bytes 0, 0, 255, 255 here and 255, 0, 0, 255 in Vulkan |
| Render.RedFrameBytes | rgpu/proto/rgpu_protocol.h:36-78 | a frame of three commands byte by byte |
| Render.FramedBatchShowsAlikeIff | rgpu/renderd/win/rgpu_renderd_win.cpp:29-80 | the same iff from the bytes of a written frame, as each renderer takes them, to the pictures |
| Render.WholeFrame | rgpu/renderd/win/rgpu_renderd_win.cpp:30-38 | of a frame as long as its header says both renderers take the same commands, up to a record that wraps |
| Render.ExtendedFrame | rgpu/renderd/linux/rgpu_renderd_vk.cpp:51-61 | with more bytes behind, D3D11 draws the batch and Vulkan the batch and what the bytes read as |
| Render.ExtendedFrameShowsAlikeIff | rgpu/renderd/linux/rgpu_renderd_vk.cpp:51-61 | when the pictures are still the same then |
| Render.TruncatedFrame | rgpu/renderd/win/rgpu_renderd_win.cpp:30-38 | cut short, Vulkan draws the whole commands, and D3D11 reads past the frame unless only unread bytes of the last arguments are missing |
| Rendezvous.Keeps | rgpu/controller/rgpu_controller.py:37-80 | every step of registration, pairing, relay, agent and close keeps the pairing invariant |
| Rendezvous.PairedOnce | rgpu/controller/rgpu_controller.py:45-58 | an agent once paired keeps its one client for the rest of the run |
| Rendezvous.OneAgentEach | rgpu/controller/rgpu_controller.py:58-80 | no client has two agents |
| Rendezvous.RepliesMatchBatches | rgpu/controller/rgpu_controller.py:66-71 | at most one batch in flight, and the k-th reply is the own agent's answer to the k-th batch |
| Rendezvous.ReadyIsUnused | rgpu/renderd/rgpu_agent.py:46-61 | an agent in the queue has been sent nothing and serves no one |
| Rendezvous.FirstComeFirst | rgpu/controller/rgpu_controller.py:47-58 | a client gets the agent that has waited longest, and every agent waits or was taken |
| Rendezvous.ToldIff | rgpu/controller/rgpu_controller.py:74-80 | an agent is told of the end iff its client's session ended while it was there |
| Rendezvous.ToldOnce | rgpu/controller/rgpu_controller.py:74-80 | once, and last |
| Rendezvous.OneBatch | rgpu/controller/rgpu_controller.py:65-80 | a run in which a batch is relayed, its reply delivered and the agent told |
| Rendezvous.LostAgents | rgpu/controller/rgpu_controller.py:76-79 | two runs in which the agent is gone before, at the start or the end of the session, and told nothing |
| Rendezvous.NoAgent | rgpu/controller/rgpu_controller.py:57-60 | a run in which a client is refused because no agent comes |
| Composite.ParseQuoted | cmd/controller/storage/postgres/composite.go:54-80 | the loop with its escape flag computes the quoted value and where it ends |
| Composite.ParseElement | cmd/controller/storage/postgres/composite.go:52-93 | one field, or that the input was exhausted |
| Composite.ParseComposite | cmd/controller/storage/postgres/composite.go:43-112 | the nested loops end, and compute row, error or index panic as the recursive reading does |
| Composite.EscapeReads | cmd/controller/storage/postgres/composite.go:54-80 | an escaped value reads back as itself |
| Composite.PrintedReads | cmd/controller/storage/postgres/composite.go:43-112 | every printed row reads back with its NULL literals as nulls, whatever follows it |
| Composite.RoundTripIff | cmd/controller/storage/postgres/composite.go:83-91 | the row comes back unchanged iff it has a field and none is the literal NULL |
| Composite.PrintInjective | cmd/controller/storage/postgres/composite.go:43-112 | such rows that print alike are the same row, so null stays apart from empty |
| Composite.CutNeverReads | cmd/controller/storage/postgres/composite.go:95-105 | a printed row cut short never reads as a row: an error where a field would begin, an index panic at any other cut |
| Composite.PrintsPlainIff | cmd/controller/storage/postgres/composite.go:82-92 | a value prints as it is iff it is not empty and has no quote, parenthesis, comma, backslash or white space |
| Composite.SamplePrints | cmd/controller/storage/postgres/composite.go:53-93 | a row of four fields byte by byte |
| Composite.NullReads | cmd/controller/storage/postgres/composite.go:82-91 | the value of the four letters NULL prints as they are and reads as null |
| Percentiles.Advance | cmd/controller/storage/postgres/postgres.go:405-413 | walking on to a rank ends on the value at that rank of the expanded list |
| Percentiles.CalculatePercentiles | cmd/controller/storage/postgres/postgres.go:387-447 | every percentile is the value at rank max(r, 1) of the sorted values, P100 the largest |
| Percentiles.ExpandIsSort | cmd/controller/storage/postgres/postgres.go:389-393 | a histogram expanded over its sorted keys is its values sorted, and its counts sum to their number |
| Percentiles.PercentilesRise | cmd/controller/storage/postgres/postgres.go:395-443 | P10 to P100 never decrease |
| Percentiles.PercentilesDetermined | cmd/controller/storage/postgres/postgres.go:387-447 | the values and ranks determine them |
| Percentiles.CalculateFromZero | cmd/controller/storage/memdb/memdb.go:169-225 | the walk from zero gives the value at every positive rank and zero at rank zero, and panics iff there is no value |
| Percentiles.ZeroStartDiffersIff | cmd/controller/storage/memdb/memdb.go:186-222 | the two drivers' records differ iff some rank is zero and no value is |
| Percentiles.OneGpuZero | cmd/controller/storage/memdb/memdb.go:174-222 | one GPU of 8 GB with 1 GB used: 7 throughout in one driver, zero below P100 in the other |
| Percentiles.AddSummarizes | cmd/controller/storage/postgres/postgres.go:353-373 | one GPU more keeps counts, sums and histograms those of the GPUs so far, overall and per name |
| Percentiles.Aggregate | cmd/controller/storage/postgres/postgres.go:339-374 | the folds summarize exactly the GPUs of all rows: counts, memory, utilisation and power, overall and per name |
| Percentiles.FreeGbsAre | cmd/controller/storage/postgres/postgres.go:360 | the numbers counted are the whole gigabytes each GPU has and does not use, or of 2^64 bytes more when it uses more than it has |
| Percentiles.SummaryCountsFree | cmd/controller/storage/postgres/postgres.go:360-367 | the histograms count these numbers, of all GPUs and of each name's own |
| Percentiles.NameMeanIff | cmd/controller/storage/postgres/postgres.go:381-385 | a name's sum over the number of all GPUs is the mean of its own iff there are no others or the sum is zero |
| Percentiles.TwoNames | cmd/controller/storage/memdb/memdb.go:233-236 | two GPUs of different names on which the figure is half the mean |
| Percentiles.AggregatePercentiles | cmd/controller/storage/postgres/postgres.go:339-453 | overall and by name, the percentiles are those of the free gigabytes of the GPUs counted |

## Left out

- GpuSpec.FindMeetsIntent: a sufficient condition only; the exact one is that of `FindIntent.FindIntentIff`.
- GpuSets.GpuSet.Find: the PCI bus text is taken as already parsed, only equality of addresses is used.
- GpuSets.GpuSet.Select: an empty choice and an index out of range panic in the source and are preconditions; that neither happens is proved for the scheduler.
- GpuSets.SelectedGpuSet.Release: releasing twice panics in the source and is a precondition; `SessionLife.ReleasedOnceAfterAll` shows that sessions release once.
- Memdb.StorageDriver.AssignSession: a missing agent or session panics in the source; here the transaction fails and commits nothing, and in `Runs` the controller crashes.
- Memdb.StorageDriver.UpdateAgent: GPU metrics and timestamps are left out, and rows are immutable values, so slices shared between versions of a row are not captured: an update that panics at a lost session has by then written the state of that session's copy. go-memdb is not part of this model: its DeleteAll over a uuid index is taken to range over the whole table without an argument and to fail with more than one.
- Memdb.StorageDriver.SetAgentsMissing: which agents were silent is a parameter, as are those of the removal sweep; there is no clock.
- Backend.Update: one pass with nobody else at work; the interleaved scheduler is the one of `Protocol` and `Runs`. Storage fails only where a removal sweep has two agents to remove, and the order in which agents are asked is that of the snapshot.
- ControllerInv.UpdateKeeps: agents never report a session as queued.
- ControllerInv.CancelKeeps: the intended cancel leaves sessions that are already closed as they are.
- AgentProcess.Agent.DrainUpdates: the channels are unbounded queues, so a sender blocked on a full channel of 32 is not modelled.
- AgentProcess.Agent.RegisterSession: sessions an agent accepts without a controller (requestSession) are left out, as that endpoint is removed once it is connected.
- AgentProcess.Agent.CancelSession: that a closed session is not cancelled again, and what the cancellation sets off, is in `SessionLife`, not here.
- Runs.Reachable: an update the controller cannot apply any more, or a failed request, stops the agent; a stopped agent's sessions may still end. A panic in an update ends its request only, and the writer lock of go-memdb it would keep is not modelled: later transactions go on. After a crash of the controller nothing happens.
- InlineHook.DecodeAt: an instruction that runs past the end of the given bytes is refused, where the source would read on.
- InlineHook.Hook: allocation and protection are steps that may fail, cache flushing and the freeing of a page are left out.
- LinkedLists.LinkedList.Append: nodes are slots of the list's blocks and references are slot numbers, not heap objects; two references alias when their numbers are equal. The list is not followed past a nil dereference.
- SessionLife.NeverStuck: the renderer process and its answer to a forwarded socket are taken to come eventually, and a failed start leaves nothing behind.
- AgentTasks.Keeps: Wait is taken to have begun, the group's context may end at any time, a session's task and its closing task are tasks of the same kind, and the wait group's own check for a late Add is left out.
- Wire.BatchWriter.Cmd: nothing is said of the buffer after the copy has left it.
- Render.D3dRenderer.RenderBatch: the model ends a batch, with an error of its own, where the source reads on: arguments shorter than their layout, bytes beyond the buffer, a record that wraps. The graphics device is taken to be there; textures are a size and one colour, whose bytes in each format are a parameter, and a copied row is one of pixels of four bytes.
- Rendezvous.RepliesMatchBatches: HELLO, capabilities, tokens and session numbers are left out; a reply is any message an agent sends for a batch.
- Percentiles.CalculatePercentiles: ranks are any nondecreasing numbers up to the total, not their floating-point computation, and the averages of utilisation and power are over `real`.
- Conversion of parsed composite columns to Go values, and the gorm driver, whose accounting differs from the two others.
- SQL text, JSON, HTTP endpoints, tokens, pools and permissions, logging and metrics.
- Process launch, pipes, socket forwarding and Windows job objects; a connection is a process that ends once with an exit code.
- The D3D11, D3D12 and DXGI wrappers and vtable patching, which only forward to foreign objects.
