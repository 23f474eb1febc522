/**
 * The ECS component records of the extension engine and of the gameplay
 * systems, as plain values. Floating-point fields are `real`; colours are
 * kept only where a modelled rule reads them.
 */
module Components {
  import opened Grid

  datatype Color4 = Color4(r: real, g: real, b: real, a: real)

  /** The grid position a cube asks to be registered under, and whether it is. */
  datatype CubeGridPosition = CubeGridPosition(gridPosition: Int3, isRegistered: bool)

  datatype CubeType = Static | Dynamic | Extended

  /** Metadata carried by every block of an extension chain. */
  datatype ExtendChainData = ExtendChainData(rootEntity: Entity, direction: Int3, indexInChain: int, chainId: int)

  /** Marks a block that can anchor chains; `currentExtensions` counts its chains. */
  datatype ExtendableTag = ExtendableTag(maxExtendLength: int, currentExtensions: int, allowMultipleChains: bool)

  /** A request, on an anchor, to grow a chain of `length` blocks after offset `startIndex`. */
  datatype ExtendExecutionRequest = ExtendExecutionRequest(direction: Int3, length: int, chainId: int, startIndex: int)

  /**
   * The second request record declared next to the keyboard input manager: the
   * same fields without `startIndex`. It is a distinct component type.
   */
  datatype InputExtendRequest = InputExtendRequest(direction: Int3, length: int, chainId: int)

  datatype ExtendPreview = ExtendPreview(previewLength: int, previewDirection: Int3, isValid: bool, validLength: int)

  datatype ExtendedLifetime = ExtendedLifetime(remainingSeconds: real, totalSeconds: real, originalAlpha: real)

  datatype PlayerGridFoot = PlayerGridFoot(currentCell: Int3, lastCell: Int3)

  datatype StageStepProgress = StageStepProgress(stageIndex: int, totalToTrigger: int, triggered: int)

  datatype SelectionState = SelectionState(isSelected: int, selectTime: real)

  datatype HighlightState = HighlightState(intensity: real, color: Color4, animTime: real)

  datatype RetractRequest = RetractRequest(chainId: int, retractWholeChain: bool, targetLength: int)

  /**
   * The extension settings singleton. `instanceAlpha` is `Some(DefaultColor.w)`
   * in a build that writes per-instance colours with ApplyInstanceColor set,
   * and `None` otherwise.
   */
  datatype ExtendSettings = ExtendSettings(
    cubePrefab: Entity,
    autoAddCollider: bool,
    instanceAlpha: Option<real>,
    extendedLifetimeSeconds: real)

  /** One cell of a layout buffer. */
  datatype CubeCell = CubeCell(coord: Int3, typeId: int, color: Color4)

  /**
   * The layout spawner of a holder entity. World position is
   * origin + coord * cellSize, kept on the lattice.
   */
  datatype CubeLayoutSpawner = CubeLayoutSpawner(
    prefab: Entity,
    origin: Int3,
    cellSize: int,
    spawnPerFrame: int,
    spawnedCount: int,
    removeOnComplete: int)

  /** Collider shapes and merge modes of the collider generator. */
  datatype ColliderType = BoxColliders | MeshCollider
  datatype MergeMode = NoMerge | GreedyMerge | LayerMerge

  /** One stage of a level sequence: its layout and how to spawn it. */
  datatype StageEntry = StageEntry(
    cells: seq<CubeCell>,
    origin: Int3,
    cellSize: int,
    prefab: Entity,
    spawnPerFrame: int,
    removeOnComplete: int,
    colliderType: ColliderType,
    mergeMode: MergeMode)

  /** A level-sequence entity: its runtime state and its stage buffer. */
  datatype LevelSequence = LevelSequence(currentIndex: int, started: int, stages: seq<StageEntry>)

  /** A request for the collider generator to build a stage's colliders. */
  datatype GenerateCollidersRequest = GenerateCollidersRequest(
    layout: seq<CubeCell>,
    colliderType: ColliderType,
    mergeMode: MergeMode,
    stageIndex: int)

  /** A step-trigger colour entry: the colour and glow a cube variant takes when stepped on. */
  datatype StepTriggerColor = StepTriggerColor(typeId: int, color: Color4, emissionIntensity: real)

  /** A dance trigger: a stage, a cube variant and, when `useCoord` is not 0, an exact cell. */
  datatype DanceTriggerEntry = DanceTriggerEntry(stageIndex: int, typeId: int, coord: Int3, useCoord: int)

  /** The event that starts a world-dance sequence. */
  datatype WorldDanceSequenceStart = WorldDanceSequenceStart(startIndex: int, endIndex: int, intervalSeconds: real)

  /** The event that asks the audio side to play a step sound. */
  datatype StepAudioEvent = StepAudioEvent(position: Int3, typeId: int)

  /** The dance-wide state singleton: the stage being danced, its phase and its participant count. */
  datatype WorldDanceState = WorldDanceState(stageIndex: int, phase: int, phaseStartTime: real,
                                             gatherHeight: real, planetRadius: real, totalParticipants: int)

  /** A running multi-stage sequence: the next stage to dance, the last one, and its timing. */
  datatype WorldDanceSequenceState = WorldDanceSequenceState(current: int, end: int, interval: real, nextTime: real, totalStages: int)

  /** The dismantle animation a dance participant starts with. */
  datatype DanceDismantle = DanceDismantle(startTime: real, duration: real, outwardPower: real,
                                           noiseAmplitude: real, seed: int, basePosition: Int3)

  /** The dance tuning the orchestrator and the triggers read. */
  datatype WorldDanceSettings = WorldDanceSettings(gatherHeight: real, planetRadius: real, sequenceIntervalSeconds: real)
}
