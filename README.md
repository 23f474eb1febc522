# A verified model of the block-extension puzzle core

This project models, in Dafny, the gameplay core of a Unity DOTS puzzle game.
The game is played on a cube lattice. The player selects an interactable
anchor cube and extends it along an axis into a chain of new blocks. The
preview shows the longest free run of cells. Execution creates the blocks
up to the first occupied cell and never inside the player's body. Chains can
be retracted and expire after a lifetime. Stepping on cubes counts towards the
stage's progress and advances the level, while world-dance sequences dismantle
stages and hand the player free flight.

The model is organised by the game's own systems and components:

- **Shared lattice and world** (`Grid`, `Components`, `EcsWorld`). The entity
  world is a class holding a map from entity handle to the components
  attached to it. Systems fill a command buffer (a sequence of commands) that
  is played back at the end of their update. Queries enumerate entities in
  ascending handle order.
- **Occupancy and extension** (`Occupancy`, `ExtendPreviewSystem`,
  `ExtendExecutionSystem`, `RetractSystem`, `ExtendedLifetimeSystem`). This
  covers the occupancy index with its first-claimant-wins registration, purge
  and growth, and the preview's free run. It also covers chain creation with
  its resume offset, player-cell skip and stop at obstruction, plus chain
  retraction and the lifetime fade and expiry.
- **Input managers** (`CubeSelection`, `ExtendInput`, `CrosshairExtend`).
  These hold the click selection, the keyboard hold/release extension and the
  crosshair press/hold/release/right-click extension.
- **Layouts** (`ColliderGenerator`, `GridBrush`, `LayoutSpawn`,
  `LayoutToggle`, `LevelProgression`). These cover the box-collider generator
  in its three merge modes and the editor's grid brush. They also cover the
  batched layout spawner, the layout-mode toggle and the level progression
  through a sequence of stages.
- **Steps and dances** (`StepDetection`, `WorldDanceOrchestrator`,
  `StepTriggers`). These cover step detection with its progress counting, the
  world-dance orchestrator, and the MonoBehaviour triggers with their packed
  64-bit dedupe keys.
- **Small utilities** (`FreeFlyCheat`, `Sfx`, `Narration`): the arrow-key
  cheat code, the sound-effect source pool and the narration lookup.

Every pure rule is a function whose contract or companion lemmas state what
it means. Every component that changes state in place is a class or the
world, and its methods are proved against those functions. The main results
are listed below:

- The execution creates a cell exactly when it lies in the requested range,
  is free and is reached before any obstruction.
- The greedy collider merges tile the layout's distinct coordinates with
  pairwise disjoint boxes. The 3-D box grown at each step has the largest
  volume of any box that fits there.
- The occupancy registration keeps the first claimant of every cell.
- The layout toggle cycles through its modes.
- The level progression advances each sequence by one stage per frame with
  requests.
- The sound pool accounts for every source it made.
- The dance orchestrator applies each change at once, where Unity defers
  them all to one playback. Dancing changes no stage tag and creates or
  destroys no cube, so every stage query still finds the participants the
  world had when the update began (`WorldDanceOrchestrator.UpdateKeepsParticipants`).

Points where the code behaves in a way that is easy to miss, all followed
by the model:

- **Chains can have gaps.** The execution skips the two cells the player's
  body fills and carries on past them (`ExtendExecutionSystem.PlayerCellLeavesGap`).
- **Two request types of the same name.** `ExtendExecutionRequest` is
  declared twice: in `Core/Components/Extend/ExtendExecutionRequest.cs`
  (namespace `Project.Core.Components`, with a `StartIndex` field) and at
  `Core/Authoring/Extend/ExtendInputManager.cs:316` (namespace
  `Project.Core.Authoring`, without it). The crosshair manager sets
  `StartIndex`, so the model gives it the first type, `ExtendExecutionRequest`,
  which `ExtendExecutionSystem` queries. The keyboard manager is given the
  second type, modelled as `InputExtendRequest`. The execution system never
  reads that component, so a keyboard hold and release never extends a chain
  in the model; it only leaves the request on the anchor.
- **The retract flag does nothing.** The flag for retracting a whole chain has
  no effect, because both of its branches collect the same blocks.
- **Occupancy keys.** `ExtendExecutionSystem.cs:81` probes the occupancy map
  with an `int4` key (cell plus stage) although the map is keyed by `int3`
  cells. The model looks the cell up by its (x, y, z) coordinates, as the
  preview does.
- **The dance trigger's dedupe key.** A field comment at
  `Core/Authoring/Dance/WorldDanceMonoTrigger.cs:18` describes a key laid out
  as stage<<40 | x<<26 | y<<13 | z. The key actually built at line 51 puts the
  fields at bits 48, 35, 22 and 9 and ORs in the entry index unmasked. The
  model follows line 51. `StepTriggers.KeyInjective` proves the key unique
  for entry indices below 512. `StepTriggers.IndexOverflowCollides` shows that
  entry 512 of one cell gets the same key as entry 0 of the next cell along z.

## Model

| member | source | states |
|---|---|---|
| FreeFlyCheat.Step | Assets/_Project/Scripts/Core/Authoring/Tools/FreeFlyCheatCode.cs:32-62 | an empty sequence changes nothing; a frame matches exactly when, after the pause reset, the position is at the last key and that key is down; a match leaves the position at 0 or at the sequence length (resetAfterTrigger) stamped with the frame time; a frame with no arrow and no sequence key keeps the pause-reset progress |
| FreeFlyCheat.StepInRange | Assets/_Project/Scripts/Core/Authoring/Tools/FreeFlyCheatCode.cs:34-62 | the position never leaves [0, sequence length] |
| FreeFlyCheat.WrongArrowRestarts | Assets/_Project/Scripts/Core/Authoring/Tools/FreeFlyCheatCode.cs:50-61 | an arrow that is not the expected key restarts at 1 when the first key of the sequence is down and at 0 otherwise, without a match |
| FreeFlyCheat.TypingRestMatches | Assets/_Project/Scripts/Core/Authoring/Tools/FreeFlyCheatCode.cs:35-48 | part way in, typing the remaining keys one per frame with no pause above the limit matches on the last key and on no earlier frame |
| FreeFlyCheat.TypingSequenceMatches | Assets/_Project/Scripts/Core/Authoring/Tools/FreeFlyCheatCode.cs:11-19 | from the start (or after a long pause) typing the whole sequence briskly matches exactly once, on its last key |
| FreeFlyCheat.Positions | Assets/_Project/Scripts/Core/Authoring/Tools/FreeFlyCheatCode.cs:32-62 | over a run of frames, the position starts at the given one and each frame's position after is the one Step gives from the position before |
| FreeFlyCheat.Run | Assets/_Project/Scripts/Core/Authoring/Tools/FreeFlyCheatCode.cs:32-62 | one match flag per frame, and frame k matches exactly when Step matches from the position the frames before it left |
| FreeFlyCheat.FreeFlyCheatCode.constructor | Assets/_Project/Scripts/Core/Authoring/Tools/FreeFlyCheatCode.cs:22-23 | a new component is at position 0 with last time -999 and no entity world yet |
| FreeFlyCheat.FreeFlyCheatCode.Awake | Assets/_Project/Scripts/Core/Authoring/Tools/FreeFlyCheatCode.cs:26-30 | the entity world's manager is kept exactly when the default world exists |
| FreeFlyCheat.FreeFlyCheatCode.Update | Assets/_Project/Scripts/Core/Authoring/Tools/FreeFlyCheatCode.cs:32-71 | the position and time move as Step says, and a free-flight request is raised exactly on a match with an entity world present |
| WorldDanceOrchestrator.Seed | Assets/_Project/Scripts/Core/Systems/Dance/WorldDanceOrchestratorSystem.cs:73 | the dismantle seed is an unsigned 32-bit value |
| WorldDanceOrchestrator.Enroll | Assets/_Project/Scripts/Core/Systems/Dance/WorldDanceOrchestratorSystem.cs:63-81 | a participant gets its dance index, a dismantle starting now from its current cell, loses its collider reference, and nothing else of it changes |
| WorldDanceOrchestrator.EnrollAllSpec | Assets/_Project/Scripts/Core/Systems/Dance/WorldDanceOrchestratorSystem.cs:63-81 | over a list without repeats participant i is enrolled with index i and every other entity is unchanged |
| WorldDanceOrchestrator.EnlistNumbersStage | Assets/_Project/Scripts/Core/Systems/Dance/WorldDanceOrchestratorSystem.cs:28-38 | dancing a stage numbers exactly the cubes of that stage, with indices below the participant count, no two alike, and leaves the other cubes as they were |
| WorldDanceOrchestrator.SameStagesParticipants | Assets/_Project/Scripts/Core/Systems/Dance/WorldDanceOrchestratorSystem.cs:30-36 | two worlds with the same cubes and stage tags have the same participants for every stage |
| WorldDanceOrchestrator.EnrollAllKeepsStages | Assets/_Project/Scripts/Core/Systems/Dance/WorldDanceOrchestratorSystem.cs:63-81 | enrolling cubes creates or destroys none and changes no stage tag |
| WorldDanceOrchestrator.EnrollKeepsParticipants | Assets/_Project/Scripts/Core/Systems/Dance/WorldDanceOrchestratorSystem.cs:63-81 | after enrolling any cubes every stage has the participants it had before |
| WorldDanceOrchestrator.StartPassKeepsStages | Assets/_Project/Scripts/Core/Systems/Dance/WorldDanceOrchestratorSystem.cs:22-97 | the single-stage pass changes no cube's stage tag and creates or destroys no cube |
| WorldDanceOrchestrator.ProgressPassKeepsStages | Assets/_Project/Scripts/Core/Systems/Dance/WorldDanceOrchestratorSystem.cs:123-142 | the cursor pass changes no cube's stage tag and creates or destroys no cube |
| WorldDanceOrchestrator.UpdateKeepsParticipants | Assets/_Project/Scripts/Core/Systems/Dance/WorldDanceOrchestratorSystem.cs:19-144 | every stage query of an update, after any prefix of the starts or of the cursors, finds the participants the world had when the update began, as deferred playback gives |
| WorldDanceOrchestrator.NewDanceState | Assets/_Project/Scripts/Core/Systems/Dance/WorldDanceOrchestratorSystem.cs:48-60 | the new dance state is in phase 1 for the stage, starts now, counts the participants, and uses gather height 50 and planet radius 20 without settings |
| WorldDanceOrchestrator.NewSequence | Assets/_Project/Scripts/Core/Systems/Dance/WorldDanceOrchestratorSystem.cs:100-120 | a sequence cursor starts at max(0, StartIndex), ends at EndIndex or else at the last stage (at least 0), waits at least 0.01 s between stages and is due now |
| WorldDanceOrchestrator.NewSequences | Assets/_Project/Scripts/Core/Systems/Dance/WorldDanceOrchestratorSystem.cs:100-120 | every pending sequence start becomes one cursor, in query order |
| WorldDanceOrchestrator.SeqStep | Assets/_Project/Scripts/Core/Systems/Dance/WorldDanceOrchestratorSystem.cs:123-142 | a cursor waits before its time, ends past its last stage, and otherwise dances its current stage, advances by one, waits one interval and asks for free flight exactly on the last stage |
| WorldDanceOrchestrator.SequenceInOrder | Assets/_Project/Scripts/Core/Systems/Dance/WorldDanceOrchestratorSystem.cs:123-142 | whatever the update times, a cursor dances consecutive stages from its first, never past its last, each once in increasing order, and asks for free flight once exactly when it has danced its last stage |
| WorldDanceOrchestrator.SequenceFinishes | Assets/_Project/Scripts/Core/Systems/Dance/WorldDanceOrchestratorSystem.cs:123-142 | a cursor updated once per interval dances every stage from its first to its last and is then destroyed |
| WorldDanceOrchestrator.StartStageCreates | Assets/_Project/Scripts/Core/Systems/Dance/WorldDanceOrchestratorSystem.cs:38-60 | a single-stage start records at most one dance state, and only when the stage has participants |
| WorldDanceOrchestrator.ProgressOneCreates | Assets/_Project/Scripts/Core/Systems/Dance/WorldDanceOrchestratorSystem.cs:147-172 | a cursor step records at most one dance state, only for a stage with participants, and keeps at most one cursor |
| WorldDanceOrchestrator.StartPassCreates | Assets/_Project/Scripts/Core/Systems/Dance/WorldDanceOrchestratorSystem.cs:22-97 | the single-stage pass records at most one dance state per start, each from a dance with participants |
| WorldDanceOrchestrator.ProgressPassCreates | Assets/_Project/Scripts/Core/Systems/Dance/WorldDanceOrchestratorSystem.cs:123-142 | the cursor pass records at most one dance state and keeps at most one cursor per running cursor |
| WorldDanceOrchestrator.UpdateCreates | Assets/_Project/Scripts/Core/Systems/Dance/WorldDanceOrchestratorSystem.cs:17-145 | every dance state an update creates comes from a dance with participants, at most one per start and cursor, and no more cursors survive than were running |
| WorldDanceOrchestrator.Enlist | Assets/_Project/Scripts/Core/Systems/Dance/WorldDanceOrchestratorSystem.cs:63-81 | the participants are enrolled in place as EnrollAll says |
| WorldDanceOrchestrator.DanceStage | Assets/_Project/Scripts/Core/Systems/Dance/WorldDanceOrchestratorSystem.cs:147-199 | a stage dance without participants changes nothing; otherwise the participants are enrolled and the new dance state returned |
| WorldDanceOrchestrator.StartOne | Assets/_Project/Scripts/Core/Systems/Dance/WorldDanceOrchestratorSystem.cs:22-97 | one single-stage start dances its stage and asks for free flight when it is the last stage of the level sequence |
| WorldDanceOrchestrator.DanceStarts | Assets/_Project/Scripts/Core/Systems/Dance/WorldDanceOrchestratorSystem.cs:22-97 | the single-stage starts are danced in query order |
| WorldDanceOrchestrator.StepSequence | Assets/_Project/Scripts/Core/Systems/Dance/WorldDanceOrchestratorSystem.cs:123-142 | one cursor takes its step and the surviving cursor is kept |
| WorldDanceOrchestrator.StepSequences | Assets/_Project/Scripts/Core/Systems/Dance/WorldDanceOrchestratorSystem.cs:123-142 | every running cursor takes one step in query order |
| WorldDanceOrchestrator.DanceAll | Assets/_Project/Scripts/Core/Systems/Dance/WorldDanceOrchestratorSystem.cs:17-142 | the single-stage pass runs before the cursor pass |
| WorldDanceOrchestrator.Commit | Assets/_Project/Scripts/Core/Systems/Dance/WorldDanceOrchestratorSystem.cs:118-144 | at playback every start event is consumed, the cursors are the surviving ones followed by the new ones, and the dance states are the ones the update recorded (the earlier ones when it recorded none) |
| WorldDanceOrchestrator.Update | Assets/_Project/Scripts/Core/Systems/Dance/WorldDanceOrchestratorSystem.cs:17-145 | an update consumes every start event, turns sequence starts into cursors after the running ones, replaces the dance states when it danced anything (ClearDanceState), and returns the free-flight and collider-destroy requests in order |
| CrosshairExtend.IndexToAxis | Assets/_Project/Scripts/Core/Authoring/Extend/CrosshairExtendManager.cs:449-460 | every index names a unit axis |
| CrosshairExtend.IndexToAxisTable | Assets/_Project/Scripts/Core/Authoring/Extend/CrosshairExtendManager.cs:449-460 | indices 0..5 name the six unit axes, each exactly once; a non-negative index acts like its remainder mod 6; a negative index that is not a multiple of 6 falls to the default case, -Z |
| CrosshairExtend.CrosshairExtendManager.constructor | Assets/_Project/Scripts/Core/Authoring/Extend/CrosshairExtendManager.cs:40-65 | a new manager has no selection, no session (chain id -1), no scroll axis and no preview |
| CrosshairExtend.CrosshairExtendManager.ValidateTargetLength | Assets/_Project/Scripts/Core/Authoring/Extend/CrosshairExtendManager.cs:612-628 | without an occupancy map the request itself (at least 0); otherwise the same free run the preview system computes |
| CrosshairExtend.CrosshairExtendManager.UpdateSelected | Assets/_Project/Scripts/Core/Authoring/Extend/CrosshairExtendManager.cs:202-226 | the selection is the first selected anchor in query order, or Null when there is none; a change of selection clears the axis, the spawned length and the session |
| CrosshairExtend.CrosshairExtendManager.EnsureSession | Assets/_Project/Scripts/Core/Authoring/Extend/CrosshairExtendManager.cs:228-235 | a session without a chain id gets the clock's id and a spawned length of 0; an open session is kept |
| CrosshairExtend.CrosshairExtendManager.ResetSession | Assets/_Project/Scripts/Core/Authoring/Extend/CrosshairExtendManager.cs:237-241 | the session is closed (id -1) with the given spawned length |
| CrosshairExtend.CrosshairExtendManager.ConfirmExtend | Assets/_Project/Scripts/Core/Authoring/Extend/CrosshairExtendManager.cs:595-610 | nothing happens without a selection or for a length of 0 or less; otherwise the selected anchor's request is replaced by one along the current axis from offset 0 under the session's chain id, opened from the clock when needed, and no other entity changes |
| CrosshairExtend.CrosshairExtendManager.CollectRootChains | Assets/_Project/Scripts/Core/Authoring/Extend/CrosshairExtendManager.cs:631-644 | the chain ids gathered are exactly those of the chain blocks anchored at the selection |
| CrosshairExtend.CrosshairExtendManager.RetractAllChainsOfSelectedRoot | Assets/_Project/Scripts/Core/Authoring/Extend/CrosshairExtendManager.cs:631-670 | one whole-chain retract request with target length 0 per distinct chain id anchored at the selection, and none when it anchors no chain |
| CrosshairExtend.CrosshairExtendManager.Press | Assets/_Project/Scripts/Core/Authoring/Extend/CrosshairExtendManager.cs:87-111 | a press ensures a session, fixes the axis and its baseline, and starts a suppressed preview at length 0 |
| CrosshairExtend.CrosshairExtendManager.Hold | Assets/_Project/Scripts/Core/Authoring/Extend/CrosshairExtendManager.cs:113-144 | the sampled axis and length are taken; the first held frame zeroes the preview; a positive sample, clamped to the cap, becomes the free run from the anchor's cell |
| CrosshairExtend.CrosshairExtendManager.Release | Assets/_Project/Scripts/Core/Authoring/Extend/CrosshairExtendManager.cs:145-175 | the world afterwards is ReleasedBlocks: a positive preview becomes the anchor's request along the axis from offset 0, under the session's chain id or the clock's, exactly when the ray has left the selected cube; the selection manager's current cube is then unmarked and nothing else changes; the session and drag state are reset and the selection dropped in every case |
| CrosshairExtend.ReleasedBlocksEffect | Assets/_Project/Scripts/Core/Authoring/Extend/CrosshairExtendManager.cs:158-168 | a release creates and destroys nothing, sets the anchor's request when it commits and keeps it otherwise, leaves the deselected cube unmarked, and changes only requests and selection marks, on those two cubes alone |
| CrosshairExtend.CrosshairExtendManager.EndDrag | Assets/_Project/Scripts/Core/Authoring/Extend/CrosshairExtendManager.cs:163-174 | the end of a release resets the session and the drag state, drops the selection, unmarks the selection manager's current cube and changes nothing else in the world |
| CrosshairExtend.CrosshairExtendManager.RightClick | Assets/_Project/Scripts/Core/Authoring/Extend/CrosshairExtendManager.cs:177-193 | with a preview or a drag active the right button only cancels it; otherwise, with a live selection, it returns one whole-chain request with target length 0 for each distinct chain anchored at the selected cube, and leaves the preview as it was |
| CrosshairExtend.CrosshairExtendManager.LeftButton | Assets/_Project/Scripts/Core/Authoring/Extend/CrosshairExtendManager.cs:86-175 | press, hold and release run in that order: without a release the world is unchanged and the preview is what the press and the validated sample leave; with one the world is ReleasedBlocks for that preview and the session ends |
| CrosshairExtend.CrosshairExtendManager.HandleAxisCycle | Assets/_Project/Scripts/Core/Authoring/Extend/CrosshairExtendManager.cs:462-471 | scrolling, before anything was spawned and when allowed, steps the axis index forward (+1) or back (+5) modulo 6 from at least 0; otherwise it stays |
| CrosshairExtend.CrosshairExtendManager.Update | Assets/_Project/Scripts/Core/Authoring/Extend/CrosshairExtendManager.cs:75-200 | the anchor is the first selected one in query order, and Null exactly when none is selected; without one the session ends and nothing else changes; otherwise press and hold change only the preview, the axis and the drag state, a release commits the preview the frame left (PreviewAfterHold) as ReleasedBlocks says and ends the session, and a right-button press cancels a live preview or drag or else returns one whole-chain retract per chain of the anchor; retract requests come only from a right-button press |
| ExtendExecutionSystem.ChainFrom | Assets/_Project/Scripts/Core/Systems/Extend/ExtendExecutionSystem.cs:69-86 | the offsets created from offset i on lie in [i, last], increase strictly, and are at most as many as the candidates |
| ExtendExecutionSystem.ChainIndices | Assets/_Project/Scripts/Core/Systems/Extend/ExtendExecutionSystem.cs:67-86 | a request creates at most max(0, Length) blocks, at increasing offsets in (s, s + max(0, Length)] with s = max(0, StartIndex) |
| ExtendExecutionSystem.ChainFromMembership | Assets/_Project/Scripts/Core/Systems/Extend/ExtendExecutionSystem.cs:69-86 | an offset is created exactly when it is a candidate, its cell is neither a player cell nor occupied, and no earlier non-player candidate was occupied |
| ExtendExecutionSystem.CreatedIff | Assets/_Project/Scripts/Core/Systems/Extend/ExtendExecutionSystem.cs:67-86 | the same characterisation for a whole request, from s + 1 to s + max(0, Length) |
| ExtendExecutionSystem.StopsAtObstruction | Assets/_Project/Scripts/Core/Systems/Extend/ExtendExecutionSystem.cs:80-86 | an occupied non-player candidate stops the chain: nothing at or after it is created |
| ExtendExecutionSystem.PlayerCellLeavesGap | Assets/_Project/Scripts/Core/Systems/Extend/ExtendExecutionSystem.cs:73-78 | a player cell is skipped without stopping the scan, so the chain can have a gap there |
| ExtendExecutionSystem.NoFootIsFreePrefix | Assets/_Project/Scripts/Core/Systems/Extend/ExtendExecutionSystem.cs:67-86 | with no foot cell and StartIndex at most 0, the created offsets are exactly 1..k for the longest free prefix within Length |
| ExtendExecutionSystem.Spawns | Assets/_Project/Scripts/Core/Systems/Extend/ExtendExecutionSystem.cs:88-138 | one instantiation per created offset, in order, each carrying that offset's block |
| ExtendExecutionSystem.CreatedBlockShape | Assets/_Project/Scripts/Core/Systems/Extend/ExtendExecutionSystem.cs:88-138 | each created block stands at start + dir * i, is an unregistered Extended cube, carries {root, dir, i, ChainID}, copies the anchor's stage, and has a lifetime of the configured length exactly when that length is positive |
| ExtendExecutionSystem.RequestsAlwaysRemoved | Assets/_Project/Scripts/Core/Systems/Extend/ExtendExecutionSystem.cs:173-175 | every anchor's request and preview removals are recorded, whatever its scan found |
| ExtendExecutionSystem.ScanChain | Assets/_Project/Scripts/Core/Systems/Extend/ExtendExecutionSystem.cs:63-165 | the scan records exactly the instantiations of ChainIndices and counts them |
| ExtendExecutionSystem.ExecuteRoot | Assets/_Project/Scripts/Core/Systems/Extend/ExtendExecutionSystem.cs:60-176 | one anchor: its commands are its instantiations followed by the removal of its request and preview, and its extension counter goes up exactly when the chain started at offset 0 and created something; no other entity changes |
| ExtendExecutionSystem.ExecuteNext | Assets/_Project/Scripts/Core/Systems/Extend/ExtendExecutionSystem.cs:57-180 | the anchors processed so far are bumped and their commands recorded in query order, one anchor more per step |
| ExtendExecutionSystem.ExecuteRoots | Assets/_Project/Scripts/Core/Systems/Extend/ExtendExecutionSystem.cs:57-180 | processing the anchors in order rewrites each one as the foot and the occupancy say, leaves the id counter alone, and emits exactly the commands of all anchors in that order |
| ExtendExecutionSystem.ExecuteAll | Assets/_Project/Scripts/Core/Systems/Extend/ExtendExecutionSystem.cs:57-180 | every anchor with a request is processed in query order; no other entity changes |
| ExtendExecutionSystem.Update | Assets/_Project/Scripts/Core/Systems/Extend/ExtendExecutionSystem.cs:22-184 | with no request, no settings, no prefab or no occupancy map nothing changes; otherwise all anchors are executed and the commands played back |
| ExtendPreviewSystem.FreeRun | Assets/_Project/Scripts/Core/Systems/Extend/ExtendPreviewSystem.cs:57-73 | the scan from offset i stops before the first occupied cell and never passes the request |
| ExtendPreviewSystem.CalculateValidLength | Assets/_Project/Scripts/Core/Systems/Extend/ExtendPreviewSystem.cs:55-74 | the result lies in [0, max(0, requested)], every cell up to it is free, and when it is short of the request the next cell is occupied |
| ExtendPreviewSystem.ValidLengthUnique | Assets/_Project/Scripts/Core/Systems/Extend/ExtendPreviewSystem.cs:55-74 | those three properties determine the result: any count satisfying them equals CalculateValidLength |
| ExtendPreviewSystem.PrefixLaw | Assets/_Project/Scripts/Core/Systems/Extend/ExtendPreviewSystem.cs:55-74 | a smaller request gives the larger request's answer cut at the smaller one, so the result is monotone in the request |
| ExtendPreviewSystem.BlockedAtOnce | Assets/_Project/Scripts/Core/Systems/Extend/ExtendPreviewSystem.cs:59-68 | an occupied first cell gives length 0 whatever the request |
| ExtendPreviewSystem.PreviewUpdate | Assets/_Project/Scripts/Core/Systems/Extend/ExtendPreviewSystem.cs:28-45 | an unselected anchor shows no valid extension; a selected one shows the free run from its cell; valid exactly when that run is positive; request and direction are kept |
| ExtendPreviewSystem.Update | Assets/_Project/Scripts/Core/Systems/Extend/ExtendPreviewSystem.cs:17-50 | without the occupancy map nothing changes; otherwise every preview target gets PreviewUpdate and no other entity changes |
| Occupancy.InitialCapacity | Assets/_Project/Scripts/Core/Systems/Extend/OccupiedCubeMapSystem.cs:26-31 | the initial capacity is max(4096, max(1024, 2n + 256)), which is the larger of 4096 and 2n + 256 |
| Occupancy.NeededCapacity | Assets/_Project/Scripts/Core/Systems/Extend/OccupiedCubeMapSystem.cs:51 | the needed capacity is the larger of 4096 and n + n/2 + 1024 |
| Occupancy.RegisterOne | Assets/_Project/Scripts/Core/Systems/Extend/OccupiedCubeMapSystem.cs:123-146 | a registered cube is left alone; a pending one takes its cell as grid position and is registered exactly when the cell was free, and the map gains that cell only then |
| Occupancy.FirstClaimantWins | Assets/_Project/Scripts/Core/Systems/Extend/OccupiedCubeMapSystem.cs:138-145 | after a pass an existing entry is never replaced, a new entry appears exactly for cells some pending cube claims, and it holds the earliest claimant in query order |
| Occupancy.OccupiedCubeMap.Create | Assets/_Project/Scripts/Core/Systems/Extend/OccupiedCubeMapSystem.cs:18-38 | the singleton starts empty and initialised, with the initial capacity for the existing cubes |
| Occupancy.OccupiedCubeMap.TryAdd | Assets/_Project/Scripts/Core/Systems/Extend/OccupiedCubeMapSystem.cs:58 | a free key gets the entity and reports success; an occupied key keeps its entry and reports failure |
| Occupancy.OccupiedCubeMap.Remove | Assets/_Project/Scripts/Core/Systems/Extend/OccupiedCubeMapSystem.cs:106-109 | the key's entry is removed and nothing else |
| Occupancy.OccupiedCubeMap.Grow | Assets/_Project/Scripts/Core/Systems/Extend/OccupiedCubeMapSystem.cs:45-63 | the entries are unchanged and the capacity becomes the needed capacity exactly when it was below it |
| Occupancy.OccupiedCubeMap.Execute | Assets/_Project/Scripts/Core/Systems/Extend/OccupiedCubeMapSystem.cs:123-146 | the job on one cube changes the map and that cube as RegisterOne says and no other entity |
| Occupancy.OccupiedCubeMap.Register | Assets/_Project/Scripts/Core/Systems/Extend/OccupiedCubeMapSystem.cs:65-71 | the parallel job, run in query order over the cubes with a grid position, builds the map RegisterMap describes and leaves cubes without a grid position alone |
| Occupancy.OccupiedCubeMap.Cleanup | Assets/_Project/Scripts/Core/Systems/Extend/OccupiedCubeMapSystem.cs:92-112 | exactly the entries whose entity no longer exists are removed |
| Occupancy.OccupiedCubeMap.Update | Assets/_Project/Scripts/Core/Systems/Extend/OccupiedCubeMapSystem.cs:41-75 | growth, then registration, then cleanup: the capacity covers the cubes, every cube with a grid position ends as Registered says, cubes without one are untouched, and the map holds the registered entries of live entities |
| RetractSystem.FilterMembership | Assets/_Project/Scripts/Core/Systems/Extend/RetractSystem.cs:66-86 | an entity is listed for destruction exactly when it is scanned and belongs to the chain |
| RetractSystem.FilterIncreasing | Assets/_Project/Scripts/Core/Systems/Extend/RetractSystem.cs:59-86 | the destroy list keeps query order |
| RetractSystem.FirstRootIsLeading | Assets/_Project/Scripts/Core/Systems/Extend/RetractSystem.cs:70-73 | the remembered anchor is the first non-Null RootEntity among the chain's members, read in query order |
| RetractSystem.MembersExactly | Assets/_Project/Scripts/Core/Systems/Extend/RetractSystem.cs:59-86 | over the chain query the destroy list holds exactly the live members of the chain |
| RetractSystem.RetractExact | Assets/_Project/Scripts/Core/Systems/Extend/RetractSystem.cs:56-121 | exactly the chain's members are destroyed; every other block is unchanged except the anchor, whose counter drops by one (floored at 0) exactly when something was destroyed and the anchor still lives with an ExtendableTag |
| RetractSystem.ListedExactly | Assets/_Project/Scripts/Core/Systems/Extend/RetractSystem.cs:63-105 | the destroyed handles are exactly the chain's members, and the list is non-empty exactly when the chain has a member |
| RetractSystem.RetractIdempotent | Assets/_Project/Scripts/Core/Systems/Extend/RetractSystem.cs:56-121 | retracting the same chain a second time finds no member and changes nothing |
| RetractSystem.ReleaseBeforeDestroy | Assets/_Project/Scripts/Core/Systems/Extend/RetractSystem.cs:89-102 | every listed block is destroyed, and a block with a collider reference has it released before its destruction |
| RetractSystem.CollectChain | Assets/_Project/Scripts/Core/Systems/Extend/RetractSystem.cs:59-86 | the scan lists the chain's members in query order and remembers the first non-Null root; the whole-chain flag selects two identical branches |
| RetractSystem.DestroyAll | Assets/_Project/Scripts/Core/Systems/Extend/RetractSystem.cs:89-102 | exactly the listed blocks are removed, with the release/destroy effects in order |
| RetractSystem.RetractChain | Assets/_Project/Scripts/Core/Systems/Extend/RetractSystem.cs:56-121 | the blocks afterwards are Retracted and the effects those of destroying the chain's members |
| RetractSystem.DecrementRoot | Assets/_Project/Scripts/Core/Systems/Extend/RetractSystem.cs:104-114 | the counter of the remembered anchor drops (floored at 0) exactly when something was destroyed and the anchor is non-Null, alive and extendable; otherwise nothing changes |
| RetractSystem.Update | Assets/_Project/Scripts/Core/Systems/Extend/RetractSystem.cs:23-51 | every pending request is processed and consumed, in query order: the blocks end as RetractedAll says and the effects are each retraction's release/destroy effects in request order |
| RetractSystem.EffectsTargets | Assets/_Project/Scripts/Core/Systems/Extend/RetractSystem.cs:89-102 | every effect of destroying a list targets a member of that list |
| RetractSystem.EffectsAllDestroys | Assets/_Project/Scripts/Core/Systems/Extend/RetractSystem.cs:23-51 | an update reports the destruction of exactly the blocks it removed |
| RetractSystem.RetractedAllSpec | Assets/_Project/Scripts/Core/Systems/Extend/RetractSystem.cs:41-46 | after an update a block survives exactly when it belonged to none of the requested chains |
| RetractSystem.ChainKept | Assets/_Project/Scripts/Core/Systems/Extend/RetractSystem.cs:104-114 | a retraction never changes the chain data of a surviving block |
| LayoutSpawn.SpawnedBlock | Assets/_Project/Scripts/Core/Systems/Layout/CubeLayoutSpawnSystem.cs:36-74 | a spawned cube sits at origin + coord * cellSize with stage 0, an unregistered grid position at its coordinate and the static type; exactly the type-1 cells are interactable, and those start unselected and extendable up to 10 blocks |
| LayoutSpawn.CellBlocks | Assets/_Project/Scripts/Core/Systems/Layout/CubeLayoutSpawnSystem.cs:34-37 | the cubes of a run of cells, one per cell, in buffer order |
| LayoutSpawn.BatchBlocks | Assets/_Project/Scripts/Core/Systems/Layout/CubeLayoutSpawnSystem.cs:28-37 | a holder with cells left and a positive batch instantiates the next batch of cells from its count; otherwise it instantiates nothing |
| LayoutSpawn.Instantiations | Assets/_Project/Scripts/Core/Systems/Layout/CubeLayoutSpawnSystem.cs:37 | one instantiation per cube, in order |
| LayoutSpawn.Advanced | Assets/_Project/Scripts/Core/Systems/Layout/CubeLayoutSpawnSystem.cs:93 | raising the count keeps the cells and the spawner, and keeps the buffer indexing safe |
| LayoutSpawn.AdvancedBelow | Assets/_Project/Scripts/Core/Systems/Layout/CubeLayoutSpawnSystem.cs:26 | advancing the holders keeps the set of entities |
| LayoutSpawn.AdvancedBelowStep | Assets/_Project/Scripts/Core/Systems/Layout/CubeLayoutSpawnSystem.cs:26 | one more handle of the query advances that one holder |
| LayoutSpawn.SpawnProgress | Assets/_Project/Scripts/Core/Systems/Layout/CubeLayoutSpawnSystem.cs:28-32 | a pending spawner with a positive rate moves strictly forward to min(total, count + rate) and never passes the layout's size |
| LayoutSpawn.Frames | Assets/_Project/Scripts/Core/Systems/Layout/CubeLayoutSpawnSystem.cs:93 | over any number of frames only the count of a spawner changes |
| LayoutSpawn.Reached | Assets/_Project/Scripts/Core/Systems/Layout/CubeLayoutSpawnSystem.cs:32 | the count reached after k frames lies between the start and the total |
| LayoutSpawn.ReachedNext | Assets/_Project/Scripts/Core/Systems/Layout/CubeLayoutSpawnSystem.cs:32 | each frame adds one rate to the count, capped at the total |
| LayoutSpawn.FramesCount | Assets/_Project/Scripts/Core/Systems/Layout/CubeLayoutSpawnSystem.cs:28-93 | after k frames a steady spawner's count is min(total, start + k * rate) |
| LayoutSpawn.CellBlocksSplit | Assets/_Project/Scripts/Core/Systems/Layout/CubeLayoutSpawnSystem.cs:34-37 | consecutive runs of cells join into one run |
| LayoutSpawn.FrameBatch | Assets/_Project/Scripts/Core/Systems/Layout/CubeLayoutSpawnSystem.cs:28-37 | the batch of frame k + 1 is exactly the cells between the counts reached before and after it |
| LayoutSpawn.SpawnsInOrder | Assets/_Project/Scripts/Core/Systems/Layout/CubeLayoutSpawnSystem.cs:22-107 | over k frames a steady spawner instantiates exactly the cells from its start up to min(total, start + k * rate), each once, in buffer order |
| LayoutSpawn.SpawnBatch | Assets/_Project/Scripts/Core/Systems/Layout/CubeLayoutSpawnSystem.cs:28-103 | one holder records its batch of instantiations, one cell at a time, then the spawner's removal when the batch completes the layout and removal is asked for |
| LayoutSpawn.SpawnAll | Assets/_Project/Scripts/Core/Systems/Layout/CubeLayoutSpawnSystem.cs:26-104 | every holder with a spawner, in handle order, records its commands and has its count raised |
| LayoutSpawn.Update | Assets/_Project/Scripts/Core/Systems/Layout/CubeLayoutSpawnSystem.cs:22-107 | the world after an update is the raised counts with the recorded buffer played back |
| LevelProgression.StageIndex | Assets/_Project/Scripts/Core/Systems/Level/LevelProgressionSystem.cs:30 | the stage used is the index clamped into the stage buffer: the index itself inside it, the last stage above it, stage 0 below it |
| LevelProgression.StartedAll | Assets/_Project/Scripts/Core/Systems/Level/LevelProgressionSystem.cs:61 | after the first pass every sequence is as Started says, in query order |
| LevelProgression.AdvanceAll | Assets/_Project/Scripts/Core/Systems/Level/LevelProgressionSystem.cs:82-85 | after a frame with requests every sequence is advanced once, in query order |
| LevelProgression.Creations | Assets/_Project/Scripts/Core/Systems/Level/LevelProgressionSystem.cs:35-58 | one holder creation per spawned stage, in order |
| LevelProgression.Requests | Assets/_Project/Scripts/Core/Systems/Level/LevelProgressionSystem.cs:65-71 | one collider request per spawned stage, in order |
| LevelProgression.HolderCopiesStage | Assets/_Project/Scripts/Core/Systems/Level/LevelProgressionSystem.cs:35-58 | a spawned holder starts at count 0 with the stage's rate and the stage's cells in order |
| LevelProgression.InitialSpawnOnce | Assets/_Project/Scripts/Core/Systems/Level/LevelProgressionSystem.cs:26-61 | the initial stage spawns once per sequence: after the first pass no sequence has an initial stage left |
| LevelProgression.OneStagePerSequence | Assets/_Project/Scripts/Core/Systems/Level/LevelProgressionSystem.cs:86-123 | a sequence spawns one stage per frame with requests when it has stages and none otherwise |
| LevelProgression.NextStagesCount | Assets/_Project/Scripts/Core/Systems/Level/LevelProgressionSystem.cs:82-125 | the next-level pass spawns exactly as many stages as there are sequences with stages |
| LevelProgression.AdvanceStage | Assets/_Project/Scripts/Core/Systems/Level/LevelProgressionSystem.cs:84-93 | below int.MaxValue the index moves up by one and the next stage is spawned; at or past the last stage the last stage is spawned again |
| LevelProgression.NextIndexMonotone | Assets/_Project/Scripts/Core/Systems/Level/LevelProgressionSystem.cs:85 | the intended step never moves a sequence back: the index and the stage it selects never decrease, and int.MaxValue stays put |
| LevelProgression.NextIndexAsWrittenWraps | Assets/_Project/Scripts/Core/Systems/Level/LevelProgressionSystem.cs:85 | as written, the step at int.MaxValue wraps to int.MinValue, so a sequence of two or more stages on its last stage spawns stage 0 again |
| LevelProgression.NextIndexAgrees | Assets/_Project/Scripts/Core/Systems/Level/LevelProgressionSystem.cs:85 | below int.MaxValue the written and the intended step agree |
| LevelProgression.SpawnInitialStages | Assets/_Project/Scripts/Core/Systems/Level/LevelProgressionSystem.cs:24-72 | the first pass marks every sequence started and records the initial stages' holders and collider requests in query order |
| LevelProgression.SpawnNextStages | Assets/_Project/Scripts/Core/Systems/Level/LevelProgressionSystem.cs:82-125 | the next-level pass advances every sequence and appends the holders and collider requests of the stages they land on, in query order |
| LevelProgression.Update | Assets/_Project/Scripts/Core/Systems/Level/LevelProgressionSystem.cs:21-129 | the sequences are started and, when there are requests, advanced once however many requests there are; the holders of the initial and next stages are created in that order, with one collider request each |
| ExtendedLifetimeSystem.FadeFraction | Assets/_Project/Scripts/Core/Systems/Extend/ExtendedLifetimeSystem.cs:28-29 | the fade fraction, remaining over max(0.0001, total) saturated, lies in [0, 1] |
| ExtendedLifetimeSystem.ExpiredMembership | Assets/_Project/Scripts/Core/Systems/Extend/ExtendedLifetimeSystem.cs:40-43 | a block is queued for destruction exactly when it is visited and its remaining time after the tick is 0 or below |
| ExtendedLifetimeSystem.AgedSpec | Assets/_Project/Scripts/Core/Systems/Extend/ExtendedLifetimeSystem.cs:20-47 | after a tick exactly the blocks whose time ran out are gone; every survivor with a lifetime has exactly dt less, keeps total and original alpha, and shows alpha OriginalAlpha times the fade fraction when it has a base colour; other blocks are untouched |
| ExtendedLifetimeSystem.AgedBlocks | Assets/_Project/Scripts/Core/Systems/Extend/ExtendedLifetimeSystem.cs:25-46 | a tick is the per-block countdown followed by the destruction of the expiring blocks |
| ExtendedLifetimeSystem.DestroysKeepHolders | Assets/_Project/Scripts/Core/Systems/Extend/ExtendedLifetimeSystem.cs:42-46 | destroying extended blocks leaves the spawner buffers alone |
| ExtendedLifetimeSystem.AlphaBounded | Assets/_Project/Scripts/Core/Systems/Extend/ExtendedLifetimeSystem.cs:29-35 | the displayed alpha stays between 0 and the original alpha |
| ExtendedLifetimeSystem.FadeShape | Assets/_Project/Scripts/Core/Systems/Extend/ExtendedLifetimeSystem.cs:28-29 | the fade is full while the remaining time is at least the total, zero once time has run out, and never rises as time runs down |
| ExtendedLifetimeSystem.TickOne | Assets/_Project/Scripts/Core/Systems/Extend/ExtendedLifetimeSystem.cs:27-43 | one block is ticked in place and reported exactly when it expires |
| ExtendedLifetimeSystem.TickNext | Assets/_Project/Scripts/Core/Systems/Extend/ExtendedLifetimeSystem.cs:25-44 | one more block of the query is ticked and, if expired, appended to the buffer |
| ExtendedLifetimeSystem.TickAll | Assets/_Project/Scripts/Core/Systems/Extend/ExtendedLifetimeSystem.cs:25-44 | every block with a lifetime is ticked, and the expired ones are listed in query order |
| ExtendedLifetimeSystem.Update | Assets/_Project/Scripts/Core/Systems/Extend/ExtendedLifetimeSystem.cs:20-47 | the world after an update is Aged: ticked blocks with the expired ones destroyed |
| GridBrush.FindIndex | Assets/_Project/Scripts/Editor/GridBrush/GridBrushWindow.cs:270 | the index found holds the coordinate and no earlier entry does; -1 exactly when no entry has it |
| GridBrush.FindIndexUnique | Assets/_Project/Scripts/Editor/GridBrush/GridBrushWindow.cs:270 | any index with those three properties is the one FindIndex returns |
| GridBrush.Upsert | Assets/_Project/Scripts/Editor/GridBrush/GridBrushWindow.cs:270-272 | after painting a cell the first entry at its coordinate is the new cell, replaced in place when one existed and appended otherwise; entries at other coordinates are untouched |
| GridBrush.UpsertOther | Assets/_Project/Scripts/Editor/GridBrush/GridBrushWindow.cs:270-272 | painting a cell leaves the first entry at every other coordinate where it was |
| GridBrush.PaintEffect | Assets/_Project/Scripts/Editor/GridBrush/GridBrushWindow.cs:262-273 | after painting a list the first entry at every painted coordinate is the brush cell, and the first entry at every other coordinate is where and what it was |
| GridBrush.PaintKeepsDistinct | Assets/_Project/Scripts/Editor/GridBrush/GridBrushWindow.cs:262-273 | painting never creates two entries at one coordinate |
| GridBrush.PaintFixed | Assets/_Project/Scripts/Editor/GridBrush/GridBrushWindow.cs:262-273 | painting coordinates that already hold the brush cell changes nothing |
| GridBrush.PaintIdempotent | Assets/_Project/Scripts/Editor/GridBrush/GridBrushWindow.cs:262-273 | painting the same coordinates twice is painting them once |
| GridBrush.RemoveFirst | Assets/_Project/Scripts/Editor/GridBrush/GridBrushWindow.cs:282-283 | erasing a coordinate cuts out the first entry at it and keeps the others in order; an absent coordinate changes nothing |
| GridBrush.OutsideMembership | Assets/_Project/Scripts/Editor/GridBrush/GridBrushWindow.cs:280-284 | the reference result holds exactly the entries whose coordinate is not erased |
| GridBrush.OutsideDistinct | Assets/_Project/Scripts/Editor/GridBrush/GridBrushWindow.cs:280-284 | the reference result keeps coordinates distinct |
| GridBrush.OutsideTwice | Assets/_Project/Scripts/Editor/GridBrush/GridBrushWindow.cs:280-284 | erasing one coordinate and then a list is erasing the longer list |
| GridBrush.RemoveFirstIsOutside | Assets/_Project/Scripts/Editor/GridBrush/GridBrushWindow.cs:282-283 | with distinct coordinates, removing the first entry at a coordinate removes every entry there |
| GridBrush.OutsideNone | Assets/_Project/Scripts/Editor/GridBrush/GridBrushWindow.cs:280-284 | erasing coordinates that no entry has changes nothing |
| GridBrush.EraseIsOutside | Assets/_Project/Scripts/Editor/GridBrush/GridBrushWindow.cs:277-286 | with distinct coordinates, erasing a list leaves exactly the entries at other coordinates, in their original order, still distinct |
| GridBrush.IsErase | Assets/_Project/Scripts/Editor/GridBrush/GridBrushWindow.cs:120-129 | a click erases exactly when it is the right button or the erase toggle differs from Shift |
| GridBrush.Enumerate | Assets/_Project/Scripts/Editor/GridBrush/GridBrushWindow.cs:262 | a visit order of the preview set covers each cell exactly once |
| GridBrush.EraseCover | Assets/_Project/Scripts/Editor/GridBrush/GridBrushWindow.cs:129-146 | erasing the preview, in any visit order, removes exactly the entries inside it and keeps coordinates distinct |
| GridBrush.PaintCover | Assets/_Project/Scripts/Editor/GridBrush/GridBrushWindow.cs:129-150 | painting the preview, in any visit order, puts the brush cell first at every cell inside it, keeps the first entry at every coordinate outside it, and keeps coordinates distinct |
| GridBrush.GridBrushWindow.constructor | Assets/_Project/Scripts/Editor/GridBrush/GridBrushWindow.cs:11-16 | the window edits the given layout, with brush size 1, type 0, white and painting mode |
| GridBrush.GridBrushWindow.SetBrushSize | Assets/_Project/Scripts/Editor/GridBrush/GridBrushWindow.cs:57 | the slider holds the brush size to 1..8, keeping an in-range value |
| GridBrush.GridBrushWindow.AddRow | Assets/_Project/Scripts/Editor/GridBrush/GridBrushWindow.cs:225-227 | one row of the brush cube is added to the preview |
| GridBrush.GridBrushWindow.AddPlane | Assets/_Project/Scripts/Editor/GridBrush/GridBrushWindow.cs:224-227 | one plane of the brush cube is added to the preview |
| GridBrush.GridBrushWindow.UpdatePreview | Assets/_Project/Scripts/Editor/GridBrush/GridBrushWindow.cs:219-229 | the preview is exactly the cube of half-width max(0, brushSize - 1) around the centre, which it contains |
| GridBrush.GridBrushWindow.PaintCells | Assets/_Project/Scripts/Editor/GridBrush/GridBrushWindow.cs:259-275 | the layout becomes the cells painted one after another in order |
| GridBrush.GridBrushWindow.EraseCells | Assets/_Project/Scripts/Editor/GridBrush/GridBrushWindow.cs:277-286 | the layout becomes the cells erased one after another in order |
| GridBrush.GridBrushWindow.Stroke | Assets/_Project/Scripts/Editor/GridBrush/GridBrushWindow.cs:115-154 | the preview moves to the brush cube; other buttons change no cells; an erasing click removes exactly the cells inside the brush; a painting click puts the brush cell first at each of them and keeps the first entry at every other coordinate; coordinates stay distinct |
| ColliderGenerator.BoxCells | Assets/_Project/Scripts/Core/Authoring/Layout/CubeLayoutColliderGenerator.cs:276-286 | a cell is in a box's cells exactly when it is start + (x, y, z) with each offset below the matching side |
| ColliderGenerator.CanFormBoxIff | Assets/_Project/Scripts/Core/Authoring/Layout/CubeLayoutColliderGenerator.cs:276-286 | the box test holds exactly when all of the box's cells are available |
| ColliderGenerator.VolumeMonotone | Assets/_Project/Scripts/Core/Authoring/Layout/CubeLayoutColliderGenerator.cs:236-241 | a size no larger on any side has no larger volume |
| ColliderGenerator.GrowSide | Assets/_Project/Scripts/Core/Authoring/Layout/CubeLayoutColliderGenerator.cs:226-235 | the side grown while one more layer fits is at least 1, fits, and one more would not fit |
| ColliderGenerator.FindLargestBox | Assets/_Project/Scripts/Core/Authoring/Layout/CubeLayoutColliderGenerator.cs:219-246 | from an available start the size found fits at start and no box that fits there has a larger volume |
| ColliderGenerator.LargestOfWidth | Assets/_Project/Scripts/Core/Authoring/Layout/CubeLayoutColliderGenerator.cs:228-243 | after one width, the best size fits and no fitting box at least that wide beats its volume |
| ColliderGenerator.CanFormBox2DIsFlatBox | Assets/_Project/Scripts/Core/Authoring/Layout/CubeLayoutColliderGenerator.cs:288-297 | the rectangle test is the box test for a box one cell high |
| ColliderGenerator.FindLargestBox2D | Assets/_Project/Scripts/Core/Authoring/Layout/CubeLayoutColliderGenerator.cs:248-274 | the rectangle has sides in 1..64; from an available start it fits and no rectangle with sides up to 64 that fits there has a larger area |
| ColliderGenerator.RemoveBox | Assets/_Project/Scripts/Core/Authoring/Layout/CubeLayoutColliderGenerator.cs:185-190 | the remaining cells lose exactly the box's cells; cells that were not there are ignored |
| ColliderGenerator.CoveredMembership | Assets/_Project/Scripts/Core/Authoring/Layout/CubeLayoutColliderGenerator.cs:133-152 | a cell is covered exactly when some generated box contains it |
| ColliderGenerator.TilesSound | Assets/_Project/Scripts/Core/Authoring/Layout/CubeLayoutColliderGenerator.cs:174-194 | a tiling is made of non-empty pairwise disjoint boxes covering exactly its cells |
| ColliderGenerator.TilesComplete | Assets/_Project/Scripts/Core/Authoring/Layout/CubeLayoutColliderGenerator.cs:174-194 | non-empty pairwise disjoint boxes tile the cells they cover |
| ColliderGenerator.TilesMeans | Assets/_Project/Scripts/Core/Authoring/Layout/CubeLayoutColliderGenerator.cs:174-194 | tiling is equivalent to non-empty, pairwise disjoint and covering exactly |
| ColliderGenerator.RoundTiles | Assets/_Project/Scripts/Core/Authoring/Layout/CubeLayoutColliderGenerator.cs:179-193 | removing a fitting box grown from a remaining cell leaves strictly fewer cells and extends the tiling of the cells already covered |
| ColliderGenerator.LayerLift | Assets/_Project/Scripts/Core/Authoring/Layout/CubeLayoutColliderGenerator.cs:164-170 | flattening a layer to y = 0 and lifting it back to its height gives the layer's own coordinates |
| ColliderGenerator.LayerStep | Assets/_Project/Scripts/Core/Authoring/Layout/CubeLayoutColliderGenerator.cs:164-171 | merging the lowest pending layer keeps every merge invariant and strictly shrinks the pending cells |
| ColliderGenerator.LayerDone | Assets/_Project/Scripts/Core/Authoring/Layout/CubeLayoutColliderGenerator.cs:162-172 | once no layer is pending the boxes tile the layout, are one cell high and come in non-decreasing layer order |
| ColliderGenerator.IndividualCover | Assets/_Project/Scripts/Core/Authoring/Layout/CubeLayoutColliderGenerator.cs:154-160 | one unit box per layout entry covers exactly the layout's coordinates |
| ColliderGenerator.CubeLayoutColliderGenerator.constructor | Assets/_Project/Scripts/Core/Authoring/Layout/CubeLayoutColliderGenerator.cs:17-21 | a new generator has no generated boxes and keeps the configured collider type and merge mode |
| ColliderGenerator.CubeLayoutColliderGenerator.AddBoxCollider | Assets/_Project/Scripts/Core/Authoring/Layout/CubeLayoutColliderGenerator.cs:299-316 | the box (start, size) is appended to the generated list |
| ColliderGenerator.CubeLayoutColliderGenerator.GenerateIndividualBoxes | Assets/_Project/Scripts/Core/Authoring/Layout/CubeLayoutColliderGenerator.cs:154-160 | one unit box per layout entry is appended, in layout order |
| ColliderGenerator.CubeLayoutColliderGenerator.GenerateGreedyMergedBoxes | Assets/_Project/Scripts/Core/Authoring/Layout/CubeLayoutColliderGenerator.cs:174-194 | the loop ends and the boxes it appends tile the distinct coordinates of the layout |
| ColliderGenerator.CubeLayoutColliderGenerator.MergeRound | Assets/_Project/Scripts/Core/Authoring/Layout/CubeLayoutColliderGenerator.cs:181-192 | one round appends one box, strictly shrinks the remaining cells and extends the tiling |
| ColliderGenerator.CubeLayoutColliderGenerator.GenerateGreedyMergedBoxesForLayer | Assets/_Project/Scripts/Core/Authoring/Layout/CubeLayoutColliderGenerator.cs:196-217 | the boxes appended tile the layer at its height and are one cell high in it |
| ColliderGenerator.CubeLayoutColliderGenerator.LayerRound | Assets/_Project/Scripts/Core/Authoring/Layout/CubeLayoutColliderGenerator.cs:206-215 | one rectangle round appends one box in the layer, strictly shrinks the remaining cells and extends the layer tiling |
| ColliderGenerator.CubeLayoutColliderGenerator.GenerateLayerMergedBoxes | Assets/_Project/Scripts/Core/Authoring/Layout/CubeLayoutColliderGenerator.cs:162-172 | the boxes tile the layout, are one cell high and come in non-decreasing layer order |
| ColliderGenerator.CubeLayoutColliderGenerator.MergeLowestLayer | Assets/_Project/Scripts/Core/Authoring/Layout/CubeLayoutColliderGenerator.cs:166-171 | one layer merge keeps the merge invariants and strictly shrinks the pending layers |
| ColliderGenerator.CubeLayoutColliderGenerator.GenerateBoxColliders | Assets/_Project/Scripts/Core/Authoring/Layout/CubeLayoutColliderGenerator.cs:133-152 | the list is rebuilt: one box per entry with no merge, a tiling of the coordinates otherwise (one cell high for the layer merge), and in every mode the boxes cover exactly the layout's coordinates |
| ColliderGenerator.CubeLayoutColliderGenerator.GenerateCollider | Assets/_Project/Scripts/Core/Authoring/Layout/CubeLayoutColliderGenerator.cs:49-78 | an empty layout or the mesh path leaves the box list as it was; the box path covers exactly the layout's coordinates and tiles them when merging |
| ExtendInput.HeldGroups | Assets/_Project/Scripts/Core/Authoring/Extend/ExtendInputManager.cs:132-145 | the six key groups in the order the source tests them: W or up, S or down, A or left, D or right, E, Q |
| ExtendInput.GetDirectionInput | Assets/_Project/Scripts/Core/Authoring/Extend/ExtendInputManager.cs:129-148 | the direction is zero exactly when no group is held, and otherwise a unit axis |
| ExtendInput.DirectionPriority | Assets/_Project/Scripts/Core/Authoring/Extend/ExtendInputManager.cs:129-148 | the first held group decides the direction whatever lower groups are held, and the six groups give six distinct axes |
| ExtendInput.ExtendInputManager.constructor | Assets/_Project/Scripts/Core/Authoring/Extend/ExtendInputManager.cs:14-41 | the inspector values are kept; nothing is selected, the direction is zero and no hold is in progress |
| ExtendInput.ExtendInputManager.ClearPreview | Assets/_Project/Scripts/Core/Authoring/Extend/ExtendInputManager.cs:245-253 | the preview of the selected live anchor is removed, and nothing else changes |
| ExtendInput.ExtendInputManager.UpdatePreview | Assets/_Project/Scripts/Core/Authoring/Extend/ExtendInputManager.cs:212-240 | on a live selected anchor a missing preview is added as valid with no validated length, an existing one gets the new length and direction and keeps its validation; otherwise nothing changes |
| ExtendInput.ExtendInputManager.ConfirmExtend | Assets/_Project/Scripts/Core/Authoring/Extend/ExtendInputManager.cs:258-275 | a keyboard request (`InputExtendRequest`, the component declared in this file) is added only when the live anchor has none, with the validated length when positive and the requested one otherwise; reading a missing preview fails and changes nothing |
| ExtendInput.HoldStep | Assets/_Project/Scripts/Core/Authoring/Extend/ExtendInputManager.cs:153-182 | a new direction restarts the hold from zero; the preview grows by at most one per frame, only past the threshold and the interval, never above the cap, and the timer keeps the time of the last growth |
| ExtendInput.ReleaseEffect | Assets/_Project/Scripts/Core/Authoring/Extend/ExtendInputManager.cs:187-207 | a completed release creates and destroys nothing, leaves the anchor without a preview, gives it a keyboard request (`InputExtendRequest`, never read by the execution system) for the validated length (or the held one) in the preview direction when a positive preview was held, and changes no other cube |
| ExtendInput.ExtendInputManager.HandleDirectionHold | Assets/_Project/Scripts/Core/Authoring/Extend/ExtendInputManager.cs:153-182 | the hold state moves as HoldStep says; the world changes only when the preview grows (Grows), and then the anchor's preview is the new length in the held direction |
| ExtendInput.ExtendInputManager.HandleDirectionRelease | Assets/_Project/Scripts/Core/Authoring/Extend/ExtendInputManager.cs:187-207 | the release fails exactly when a positive preview was held and the live anchor has neither a request nor a preview; otherwise the world is ReleaseBlocks (the request, then the preview removed) and the hold state is idle |
| ExtendInput.ExtendInputManager.Update | Assets/_Project/Scripts/Core/Authoring/Extend/ExtendInputManager.cs:48-96 | the selection is the first selected anchor in query order, and Null exactly when none is selected; without one nothing changes in the world; a held direction moves the hold state as HoldStep says and grows the preview as HandleDirectionHold does; no direction releases the hold, failing or leaving ReleaseBlocks exactly as HandleDirectionRelease says |
| CubeSelection.Unselected | Assets/_Project/Scripts/Core/Authoring/Selection/CubeSelectionManager.cs:218-236 | an unselected cube keeps which components it has, with the selection flag and the intensity at zero, and nothing else changes |
| CubeSelection.Chosen | Assets/_Project/Scripts/Core/Authoring/Selection/CubeSelectionManager.cs:241-266 | a chosen cube has both components, selected at the given time with the given intensity and colour, and nothing else changes |
| CubeSelection.AfterSelectSpec | Assets/_Project/Scripts/Core/Authoring/Selection/CubeSelectionManager.cs:215-286 | after a selection the live chosen cube is marked, a different previous cube is unmarked, no cube appears or disappears, other cubes are untouched, and a single selection stays single |
| CubeSelection.FindSelectedAnchor | Assets/_Project/Scripts/Core/Authoring/Extend/ExtendInputManager.cs:101-124 | the result is the first selected anchor in query order, or Null exactly when no anchor is selected |
| CubeSelection.CubeSelectionManager.constructor | Assets/_Project/Scripts/Core/Authoring/Selection/CubeSelectionManager.cs:30-41 | nothing is selected at first, with the inspector's intensity and colour |
| CubeSelection.CubeSelectionManager.HasSelection | Assets/_Project/Scripts/Core/Authoring/Selection/CubeSelectionManager.cs:326 | there is a selection exactly when the current cube is non-null and live |
| CubeSelection.CubeSelectionManager.ClearCurrent | Assets/_Project/Scripts/Core/Authoring/Selection/CubeSelectionManager.cs:293-311 | the current live cube is unmarked, and nothing else changes |
| CubeSelection.CubeSelectionManager.MarkSelected | Assets/_Project/Scripts/Core/Authoring/Selection/CubeSelectionManager.cs:241-266 | the live cube is marked selected, and nothing else changes |
| CubeSelection.CubeSelectionManager.SelectCube | Assets/_Project/Scripts/Core/Authoring/Selection/CubeSelectionManager.cs:215-286 | the selection becomes the given entity even when it is not live, and the world is as AfterSelect says |
| CubeSelection.CubeSelectionManager.DeselectAll | Assets/_Project/Scripts/Core/Authoring/Selection/CubeSelectionManager.cs:291-316 | the live current cube is unmarked, the selection becomes Null, and after it no cube is marked when only the current one was |
| CubeSelection.CubeSelectionManager.TrySelectCube | Assets/_Project/Scripts/Core/Authoring/Selection/CubeSelectionManager.cs:109-159 | a proxy with a linked entity selects it and the world becomes AfterSelect (the previous cube unmarked, the new one marked with the highlight colour and time); a hit without one changes nothing; a miss drops the selection and unmarks the current cube; a single marked cube stays single, and after a miss none is marked |
| Sfx.SoundCounts | Assets/_Project/Scripts/Core/Authoring/Gameplay/SfxManager.cs:18-19 | in a sound pool the idle queue and the busy set together hold exactly the sources made so far |
| Sfx.TakenSound | Assets/_Project/Scripts/Core/Authoring/Gameplay/SfxManager.cs:51-57 | taking a source keeps the pool sound, hands out a source that was not busy and makes it busy, and makes a new source only when the queue is empty |
| Sfx.ReleasedSound | Assets/_Project/Scripts/Core/Authoring/Gameplay/SfxManager.cs:59-67 | handing back a busy source keeps the pool sound and moves the source from busy to idle |
| Sfx.DoubleReleaseDuplicates | Assets/_Project/Scripts/Core/Authoring/Gameplay/SfxManager.cs:59-67 | handing the same source back twice queues it twice, so the idle queue is no longer free of repeats |
| Sfx.AwakePoolSound | Assets/_Project/Scripts/Core/Authoring/Gameplay/SfxManager.cs:31-34 | a freshly woken manager has a sound pool of max(1, initialPoolSize) idle sources |
| Sfx.SfxRegistry.constructor | Assets/_Project/Scripts/Core/Authoring/Gameplay/SfxManager.cs:13 | no manager is registered at first |
| Sfx.SfxManager.constructor | Assets/_Project/Scripts/Core/Authoring/Gameplay/SfxManager.cs:15-19 | the pool size setting is kept and the pool is empty |
| Sfx.SfxManager.Awake | Assets/_Project/Scripts/Core/Authoring/Gameplay/SfxManager.cs:21-35 | a second manager destroys itself and changes nothing else; otherwise it registers itself and queues max(1, initialPoolSize) new sources in creation order |
| Sfx.SfxManager.GetSource | Assets/_Project/Scripts/Core/Authoring/Gameplay/SfxManager.cs:51-57 | the new pool and the source are those of Taken: the head of the idle queue, or a new source when the queue is empty, made busy |
| Sfx.SfxManager.ReleaseSource | Assets/_Project/Scripts/Core/Authoring/Gameplay/SfxManager.cs:59-67 | a null source changes nothing; otherwise the source leaves the busy set and joins the end of the idle queue |
| Sfx.SfxManager.PlayOneShotAtPosition | Assets/_Project/Scripts/Core/Authoring/Gameplay/SfxManager.cs:75-85 | a null clip takes no source and changes nothing; otherwise one source is taken as GetSource does and handed back for release |
| Narration.FirstWithKey | Assets/_Project/Scripts/UI/Authoring/NarrationDatabase.cs:23-30 | the position found holds the key and no earlier position does; -1 exactly when no line has the key |
| Narration.NarrationDatabase.constructor | Assets/_Project/Scripts/UI/Authoring/NarrationDatabase.cs:19 | the database holds the given lines |
| Narration.NarrationDatabase.TryGet | Assets/_Project/Scripts/UI/Authoring/NarrationDatabase.cs:21-33 | found exactly when some line has the key under ordinal comparison; then the line is the first such line, otherwise the default line |
| LayoutToggle.EffectiveCount | Assets/_Project/Scripts/Core/Systems/Layout/LayoutToggleSystem.cs:26 | the count used is positive, and a positive count is kept |
| LayoutToggle.Toggled | Assets/_Project/Scripts/Core/Systems/Layout/LayoutToggleSystem.cs:26-27 | a press normalises the count, and from a non-negative mode below int.MaxValue the new mode is one of the modes |
| LayoutToggle.Next | Assets/_Project/Scripts/Core/Systems/Layout/LayoutToggleSystem.cs:27 | the next mode counted without a remainder stays in range with the same count |
| LayoutToggle.ToggledNext | Assets/_Project/Scripts/Core/Systems/Layout/LayoutToggleSystem.cs:26-27 | for an in-range controller the 32-bit remainder step is the next mode, wrapping to 0 after the last |
| LayoutToggle.TogglePresses | Assets/_Project/Scripts/Core/Systems/Layout/LayoutToggleSystem.cs:27 | any number of presses keeps the controller in range with the same count |
| LayoutToggle.PressesCompose | Assets/_Project/Scripts/Core/Systems/Layout/LayoutToggleSystem.cs:27 | a presses then b presses are a + b presses |
| LayoutToggle.PressesCount | Assets/_Project/Scripts/Core/Systems/Layout/LayoutToggleSystem.cs:27 | below the last mode k presses add k to the mode |
| LayoutToggle.ReachesZero | Assets/_Project/Scripts/Core/Systems/Layout/LayoutToggleSystem.cs:27 | from any mode, the presses up to the count end in mode 0 |
| LayoutToggle.ModesCycle | Assets/_Project/Scripts/Core/Systems/Layout/LayoutToggleSystem.cs:27 | from any mode the presses up to the count reach mode 0, and as many presses as there are modes bring the controller back |
| LayoutToggle.LayoutWorld.constructor | Assets/_Project/Scripts/Core/Systems/Layout/LayoutToggleSystem.cs:20 | there is no controller at first |
| LayoutToggle.LayoutWorld.OnUpdate | Assets/_Project/Scripts/Core/Systems/Layout/LayoutToggleSystem.cs:13-29 | without Space nothing changes; the first press creates the controller in mode 1 of 2; later presses replace it by its toggled value |
| StepDetection.FirstColor | Assets/_Project/Scripts/Core/Systems/Gameplay/StepDetectionSystem.cs:52-61 | the entry found is for the variant and no earlier one is; -1 exactly when no entry is for the variant |
| StepDetection.ShouldTriggerMeans | Assets/_Project/Scripts/Core/Systems/Gameplay/StepDetectionSystem.cs:43-64 | a stepped cube fires exactly when it has a variant other than -1, some colour entry is for that variant, and it carries no one-shot mark |
| StepDetection.LookupColor | Assets/_Project/Scripts/Core/Systems/Gameplay/StepDetectionSystem.cs:47-62 | a configuration is found exactly when an entry for the variant exists, and it is the first one; otherwise the default white with glow 2 |
| StepDetection.HasDanceTrigger | Assets/_Project/Scripts/Core/Systems/Gameplay/StepDetectionSystem.cs:109-126 | a dance start is raised exactly when some entry agrees on stage and variant and, when bound to a coordinate, on the cube's grid position |
| StepDetection.DanceInterval | Assets/_Project/Scripts/Core/Systems/Gameplay/StepDetectionSystem.cs:120-121 | the sequence interval is at least 0.01 s, the configured one when that is larger, and 0.5 s without settings |
| StepDetection.ProgressAfter | Assets/_Project/Scripts/Core/Systems/Gameplay/StepDetectionSystem.cs:143-162 | the progress singleton gains one trigger exactly when it exists and tracks the cube's stage; otherwise it is unchanged |
| StepDetection.Fired | Assets/_Project/Scripts/Core/Systems/Gameplay/StepDetectionSystem.cs:33-64 | a cube fires only when it is live and not yet marked |
| StepDetection.Fire | Assets/_Project/Scripts/Core/Systems/Gameplay/StepDetectionSystem.cs:70-163 | a firing cube yields its colour configuration, the dance start the entries call for, the step sound at its cell and the updated progress, with a next-level request exactly when the tracked stage's count reaches a positive total |
| StepDetection.Update | Assets/_Project/Scripts/Core/Systems/Gameplay/StepDetectionSystem.cs:27-175 | when the foot has not moved nothing happens; otherwise the last cell catches up, and exactly when a cube fires it is marked in the buffer and its events and progress are those of Fire |
| StepDetection.FireOnce | Assets/_Project/Scripts/Core/Systems/Gameplay/StepDetectionSystem.cs:64-73 | once the mark is played back the cube can never fire again, and a counter that counted its stage's marked cubes still does |
| StepDetection.NoVariantNeverFires | Assets/_Project/Scripts/Core/Systems/Gameplay/StepDetectionSystem.cs:43-50 | a cube without a variant, or with variant -1, never fires whatever the colour table says |
| StepTriggers.Mask | Assets/_Project/Scripts/Core/Authoring/Dance/WorldDanceMonoTrigger.cs:51 | a value cast to long and masked keeps a value in [0, m) |
| StepTriggers.PackInjective | Assets/_Project/Scripts/Core/Authoring/Dance/WorldDanceMonoTrigger.cs:51 | fields packed at bits 48, 35, 22, 9 and 0 within their widths do not overlap: two packings agree exactly when every field does |
| StepTriggers.Unpack | Assets/_Project/Scripts/Core/Authoring/Dance/WorldDanceMonoTrigger.cs:51 | every field can be read back from the packed key |
| StepTriggers.KeyInjective | Assets/_Project/Scripts/Core/Authoring/Dance/WorldDanceMonoTrigger.cs:51 | for entry indices below 512 two dedupe keys agree exactly when the stages agree in their low 15 bits, the coordinates in their low 13 bits, and the indices are equal |
| StepTriggers.SmallIndex | Assets/_Project/Scripts/Core/Authoring/Dance/WorldDanceMonoTrigger.cs:51 | an index below 512 stays within the key's low field |
| StepTriggers.IndexOverflowCollides | Assets/_Project/Scripts/Core/Authoring/Dance/WorldDanceMonoTrigger.cs:51 | the unmasked index overflows its field: entry 512 on a cell gets the key of entry 0 one cell further along z |
| StepTriggers.FirstEligible | Assets/_Project/Scripts/Core/Authoring/Dance/WorldDanceMonoTrigger.cs:43-53 | the entry found matches the cell and its key has not fired, and no earlier entry qualifies; -1 exactly when none does |
| StepTriggers.Scan | Assets/_Project/Scripts/Core/Authoring/Dance/WorldDanceMonoTrigger.cs:43-53 | the entry scan stops at the first eligible entry and returns its key |
| StepTriggers.OnlyOwnKeyBlocks | Assets/_Project/Scripts/Core/Authoring/Dance/WorldDanceMonoTrigger.cs:52-53 | with fewer than 512 entries, recording a key changes the eligibility of no entry whose fields differ |
| StepTriggers.DanceTriggers | Assets/_Project/Scripts/Core/Authoring/Dance/WorldDanceMonoTrigger.cs:45-51 | the dance entries are read field for field, in order |
| StepTriggers.WorldDanceMonoTrigger.constructor | Assets/_Project/Scripts/Core/Authoring/Dance/WorldDanceMonoTrigger.cs:17-18 | the last cell starts at int.MinValue on every axis and no key has fired |
| StepTriggers.WorldDanceMonoTrigger.Update | Assets/_Project/Scripts/Core/Authoring/Dance/WorldDanceMonoTrigger.cs:29-79 | without tracker or configuration, or in the same cell, nothing happens; otherwise the cell is remembered and the first eligible entry alone fires, recording its fresh key, raising a sequence start from stage 0 when the entity world exists and starting the music when a controller exists |
| StepTriggers.FadeTriggers | Assets/_Project/Scripts/Core/Authoring/Audio/BGMStepFadeMonoTrigger.cs:38-44 | the fade entries are read field for field, in order |
| StepTriggers.BGMStepFadeMonoTrigger.constructor | Assets/_Project/Scripts/Core/Authoring/Audio/BGMStepFadeMonoTrigger.cs:14-15 | the last cell starts at int.MinValue on every axis and no key has fired |
| StepTriggers.BGMStepFadeMonoTrigger.Update | Assets/_Project/Scripts/Core/Authoring/Audio/BGMStepFadeMonoTrigger.cs:24-50 | without tracker, controller or configuration, or in the same cell, nothing happens; otherwise the cell is remembered and the first eligible entry alone fires, recording its fresh key and stopping the music over its fade time |
| EcsWorld.Apply | Assets/_Project/Scripts/Core/Systems/Extend/ExtendExecutionSystem.cs:89-175 | playing back one command keeps handles valid: a creation takes the next handle, a destruction removes exactly its target, and every other command leaves the set of entities as it was |
| EcsWorld.ApplyAll | Assets/_Project/Scripts/Core/Systems/Extend/ExtendExecutionSystem.cs:182 | playing back a buffer keeps handles valid and never reuses a handle |
| EcsWorld.ApplyAllConcat | Assets/_Project/Scripts/Core/Systems/Level/LevelProgressionSystem.cs:23-128 | playing back two buffers in turn is playing back their concatenation, so one buffer may be filled by several passes |
| EcsWorld.Destroys | Assets/_Project/Scripts/Core/Systems/Extend/ExtendedLifetimeSystem.cs:42 | one deferred destruction per listed entity, in order |
| EcsWorld.ApplyDestroys | Assets/_Project/Scripts/Core/Systems/Extend/ExtendedLifetimeSystem.cs:40-46 | playing back deferred destructions removes exactly the listed blocks and creates nothing |
| EcsWorld.Select | Assets/_Project/Scripts/Core/Systems/Extend/ExtendedLifetimeSystem.cs:25 | a query yields only live blocks that match |
| EcsWorld.SelectSpec | Assets/_Project/Scripts/Core/Systems/Extend/ExtendedLifetimeSystem.cs:25 | a query yields exactly the live matching blocks, each once, in ascending handle order |
| EcsWorld.Mapped | Assets/_Project/Scripts/Core/Systems/Extend/ExtendPreviewSystem.cs:26-28 | an in-place pass over a query keeps the set of entities |
| EcsWorld.RewrittenAll | Assets/_Project/Scripts/Core/Systems/Extend/ExtendPreviewSystem.cs:26-28 | rewriting the query's entities one by one in order yields every matching block rewritten and every other block as it was |
| EcsWorld.World.constructor | Assets/_Project/Scripts/Core/Systems/Extend/ExtendExecutionSystem.cs:54 | a new world is valid and empty |
| EcsWorld.World.Run | Assets/_Project/Scripts/Core/Systems/Extend/RetractSystem.cs:101 | an immediate structural change leaves the world as playing back that one command would |
| EcsWorld.World.Playback | Assets/_Project/Scripts/Core/Systems/Extend/ExtendExecutionSystem.cs:182 | the world after playback is ApplyAll of the recorded commands |
| EcsWorld.World.ForEach | Assets/_Project/Scripts/Core/Systems/Extend/ExtendPreviewSystem.cs:26-28 | every live block matching the query is rewritten in place, and every other block is untouched |
| EcsWorld.World.Destroy | Assets/_Project/Scripts/Core/Systems/Extend/RetractSystem.cs:101 | an immediate destruction removes exactly that block |
| EcsWorld.World.SetBlock | Assets/_Project/Scripts/Core/Systems/Extend/RetractSystem.cs:112 | writing a live block's components changes that block alone |

## Left out

- Parallel scheduling: the registration job and the retraction's command-buffer job run sequentially here, over entities in ascending handle order; the order Unity's chunks would give is not modelled.
- Floating-point positions: a cube's LocalTransform position is an integer lattice cell, so `math.round` of world positions and the registration's overwrite of GridPosition with the rounded position are the identity; the player's foot cell is an input rather than computed from the character's position.
- Camera and ray geometry of the crosshair manager (CalcAxisAndTargetLength, ComputeAxisParamFromRay, ComputeTargetLenBySampling, ComputeBestAxisAndLengthBySampling3, NormalToAxis, AbsorbToAxis, HandleDragAxisPick): the axis picked on press, the axis and length sampled while holding and whether the release ray hits the selected cube are inputs.
- Rendering: the URP base-colour jitter and emission of created blocks (`Core/Systems/Extend/ExtendExecutionSystem.cs:140-162`), highlight colours beyond the selection flags, gizmos, preview drawing and the OnGUI debug panels.
- Selection hover: the hover tracking and the mouse polling in the selection manager's Update are left out; the click's hit/miss outcome is an input.
- The mesh-collider path of the collider generator (GenerateMeshCollider) and ClearColliders, which destroy and create Unity components; the model keeps only the list of generated boxes, in lattice cells, so the world-space centre and size computed from cellSize and the layout origin are left out.
- The grid brush's scene GUI, undo recording, RaycastSnapDown, SnapToGrid and asset saving: the brush centre and the erase decision inputs are parameters.
- Events and requests (next-level requests, dance sequence starts, free-flight requests, collider requests, step audio events, retract requests, stage-collider destroy requests) are method inputs and outputs rather than entities of the world.
- RequireForUpdate gating: a system whose required singleton or component is absent does not run at all; the model's Update methods are called only when Unity would call them.
- Integer widths: entity handles, chain ids, CurrentExtensions, Triggered and SpawnedCount are unbounded integers. 32-bit wrap-around is written out for the layout mode and the dismantle seed. For the level index it appears only in `LevelProgression.NextIndexAsWritten`; the systems use the corrected step (see below and "## Findings").
- LevelProgression.Update: advances with the corrected saturating step `NextIndex`. At CurrentIndex = int.MaxValue it respawns the last stage, where the source wraps to int.MinValue and respawns stage 0 (`LevelProgressionSystem.cs:85`).
- LevelProgression.Advance: uses the same corrected step as `LevelProgression.Update`, not the wrapping one.
- LevelProgression.AdvanceAll: uses the same corrected step as `LevelProgression.Update`, not the wrapping one.
- LevelProgression.SpawnNextStages: uses the same corrected step as `LevelProgression.Update`, not the wrapping one.
- WorldDanceOrchestrator.SeqStep: the cursor's `Current++` is unbounded. With End = int.MaxValue the source's 32-bit increment would wrap past the last stage and never end; the model ends the cursor there.
- ExtendExecutionSystem.ChainIndices, ExtendExecutionSystem.ScanChain and ExtendPreviewSystem.CalculateValidLength: the chain cells `start + dir * i` and the chain lengths are unbounded integers; 32-bit overflow of int3 coordinates far from the origin is not modelled.
- Floating point: float32 arithmetic is modelled as exact real arithmetic, without rounding. This covers the lifetime countdown and fade alpha (`ExtendedLifetimeSystem.TickBlock`, `ExtendedLifetimeSystem.FadeFraction`), the dance and sequence times, the keyboard hold and extend timers (`ExtendInput.HoldStep`) and the cheat code's step timing.
- ExtendInput.ExtendInputManager.Update: the `autoDisableMovement` option (off by default) enables and disables the player's FirstPersonController on entering and leaving extend mode; that controller is not part of this model. The extend-mode flag it keys on is kept.
- LayoutSpawn.Update: requires every spawner to have SpawnedCount >= 0 or SpawnPerFrame <= 0, because with a negative count the source indexes the cell buffer below zero and throws; that exception is not modelled.
- The GameObject side of dancing a stage: looking up and destroying a collider GameObject by instance id is best-effort in Unity and is left out; the stage-collider destroy request it raises is kept.
- The dedupe key's entry index is not masked: `StepTriggers.IndexOverflowCollides` exhibits the collision for an entry index of 512 or more; configurations that large are not otherwise treated.
- The sound manager's coroutine that waits for a clip to end, AudioSource properties, Destroy and DontDestroyOnLoad: the source handed back when a clip ends is a parameter of ReleaseSource.
- The cheat code reads Unity's Time and Input: the frame time and the keys pressed in the frame are a frame input; its debug logging is left out.
- Null strings in the narration database are `None`; the comparison is ordinal string equality.
- The step audio event carries the cube's cell; the source falls back to the origin when the cube has no LocalTransform, which every modelled cube has.
- Occupancy.OccupiedCubeMap: the hash map's behaviour when full is not modelled. `Occupancy.OccupiedCubeMap.Update` grows the capacity to `NeededCapacity` of the block count before registering, so registration never inserts into a full map.
- Debug logging throughout.

## Findings

| source | as written | input that shows it | evidently intended | confidence | as-written member | corrected member |
|---|---|---|---|---|---|---|
| Assets/_Project/Scripts/Core/Systems/Level/LevelProgressionSystem.cs:85 | `math.min(oldIndex + 1, int.MaxValue)` adds in 32 bits before the minimum, so at int.MaxValue the index wraps to int.MinValue and the clamp then selects stage 0 | a sequence with CurrentIndex = int.MaxValue and a next-level request | the index saturates at int.MaxValue and the sequence stays on its last stage | not executed | LevelProgression.NextIndexAsWrittenWraps | LevelProgression.NextIndexMonotone |
