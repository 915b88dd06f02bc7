/**
 The tracks of the bridge protocol are those of the track protocol, seen without their queues, their status and
 their own idea of which writers are enabled.
 */
module BridgeTracks {
  import opened DdsPipeTypes
  import Track = TrackProtocol
  import Lifecycle = TrackInvariant
  import Theorems = TrackTheorems
  import Bridge = BridgeProtocol

  function View(worker: Track.Worker): Bridge.Worker {
    match worker
    case NoWorker => Bridge.Nobody
    case Leaving => Bridge.Nobody
    case Looping => Bridge.Checking
    case Storing => Bridge.Taking
    case Taking => Bridge.Taking
    case Dequeuing => Bridge.Taking
    case Subtracting => Bridge.Taking
    case Writing(_, todo) => Bridge.Writing(todo)
  }

  /** What the bridge does to track j while the track's own enable or disable is under way. */
  predicate InTurn(controller: Track.Controller, turn: Bridge.Controller, j: nat, writers: set<ParticipantId>) {
    match controller
    case ResetStatus => turn == Bridge.EnablingWriters(j, writers)
    case EnableWriters(left) => turn == Bridge.EnablingWriters(j, left)
    case EnableReader => turn == Bridge.EnablingWriters(j, {})
    case AwaitTransmission => turn == Bridge.AwaitingWorker(j)
    case DisableReader => turn == Bridge.DisablingReader(j)
    case DisableWriters(left) => turn == Bridge.DisablingWriters(j, left)
    case _ => true
  }

  /** State s is that of track j in state b of the bridge. */
  predicate Projects(c: Bridge.Tracks, b: Bridge.State, j: nat, s: Track.State) {
    && j < |c| && s.writers.Keys == c[j]
    && (s.enabled <==> j in b.tracksOn) && (s.readerEnabled <==> j in b.readersOn)
    && Bridge.WorkerOf(b, j) == View(s.worker)
    && InTurn(s.controller, b.controller, j, c[j])
  }

  datatype Matched = Nothing | One(step: Bridge.Step)

  /** What a step of track j is for the bridge. */
  function Match(s: Track.State, j: nat, step: Track.Step): Matched {
    match step
    case StartWorker => One(Bridge.Lock(j))
    case WorkerCheck => One(if s.enabled then Bridge.Begin(j) else Bridge.Leave(j))
    case WorkerEnterReader => if s.readerEnabled then Nothing else One(Bridge.TakeNothing(j, true))
    case WorkerTake => if s.queue == [] then Nothing else One(Bridge.TakeData(j))
    case WorkerSubtract => One(Bridge.TakeNothing(j, s.status != Track.TRANSMITTING_DATA))
    case WorkerWrite(id) => One(Bridge.Write(j, id))
    case WorkerWritten => One(Bridge.Finish(j))
    case StartEnable => if s.enabled then Nothing else One(Bridge.RaiseFlag)
    case EnableOneWriter(id) => One(Bridge.EnableWriter(id))
    case EnableTheReader => One(Bridge.EnableReader)
    case StartDisable => if s.enabled then One(Bridge.LowerFlag) else Nothing
    case TransmissionOver => One(Bridge.PassWait)
    case DisableTheReader => One(Bridge.DisableReader)
    case DisableOneWriter(id) => One(Bridge.DisableWriter(id))
    case WritersDisabled => One(Bridge.NextTrack)
    case _ => Nothing
  }

  /** It is up to the bridge when a track is enabled or disabled, and the writers of its tracks stay the same. */
  predicate BridgeAllows(b: Bridge.State, j: nat, s: Track.State, step: Track.Step) {
    && !step.StartAdd? && !step.StartRemove? && !step.FinishAdd? && !step.FinishRemove?
    && (step.StartEnable? && !s.enabled ==> b.controller == Bridge.Enabling(j))
    && (step.StartDisable? && s.enabled ==> b.controller == Bridge.Disabling(j))
  }

  ghost predicate Simulates(c: Bridge.Tracks, b: Bridge.State, j: nat, t: Track.State, m: Matched) {
    match m
    case Nothing => Projects(c, b, j, t)
    case One(step) => Bridge.CanStep(c, b, step) && Projects(c, Bridge.Apply(c, b, step), j, t)
  }

  lemma WorkerMovesOnly(s: Track.State, step: Track.Step)
    requires Track.CanStep(s, step) && (Track.IsWorkerStep(step) || step.StartWorker?)
    ensures var t := Track.WorkerStep(s, step);
            && t.enabled == s.enabled && t.readerEnabled == s.readerEnabled
            && t.writers == s.writers && t.controller == s.controller
  {
  }

  /** The worker of the track and that of the bridge move alike. */
  ghost predicate MovesAlike(c: Bridge.Tracks, b: Bridge.State, j: nat, s: Track.State, t: Track.State, m: Matched) {
    match m
    case Nothing => View(t.worker) == View(s.worker)
    case One(step) =>
      Bridge.CanStep(c, b, step) && Bridge.Apply(c, b, step) == b.(workers := b.workers[j := View(t.worker)])
  }

  ghost predicate SeesWorker(c: Bridge.Tracks, b: Bridge.State, j: nat, s: Track.State) {
    && j < |c| && s.writers.Keys == c[j] && Bridge.WorkerOf(b, j) == View(s.worker)
    && (s.enabled <==> j in b.tracksOn) && (s.readerEnabled <==> j in b.readersOn)
    && (s.worker.Dequeuing? || s.worker.Subtracting? ==> s.readerEnabled)
  }

  predicate IsTaking(step: Track.Step) {
    step.WorkerEnterReader? || step.WorkerTake? || step.WorkerSubtract?
  }

  lemma TakingMovesAlike(c: Bridge.Tracks, b: Bridge.State, j: nat, s: Track.State, step: Track.Step)
    requires Track.CanStep(s, step) && IsTaking(step) && SeesWorker(c, b, j, s)
    ensures MovesAlike(c, b, j, s, Track.WorkerStep(s, step), Match(s, j, step))
  {
  }

  lemma OthersMoveAlike(c: Bridge.Tracks, b: Bridge.State, j: nat, s: Track.State, step: Track.Step)
    requires Track.CanStep(s, step) && (Track.IsWorkerStep(step) || step.StartWorker?) && !IsTaking(step)
    requires SeesWorker(c, b, j, s)
    ensures MovesAlike(c, b, j, s, Track.WorkerStep(s, step), Match(s, j, step))
  {
  }

  lemma WorkerStepsSimulate(c: Bridge.Tracks, b: Bridge.State, j: nat, s: Track.State, step: Track.Step)
    requires Lifecycle.LifecycleInv(s) && Projects(c, b, j, s) && Track.CanStep(s, step)
    requires Track.IsWorkerStep(step) || step.StartWorker?
    ensures Simulates(c, b, j, Track.WorkerStep(s, step), Match(s, j, step))
  {
    WorkerMovesOnly(s, step);
    if IsTaking(step) {
      TakingMovesAlike(c, b, j, s, step);
    } else {
      OthersMoveAlike(c, b, j, s, step);
    }
    hide Lifecycle.LifecycleInv, Track.CanStep, Track.WorkerStep, Match, View, Bridge.Apply, Bridge.CanStep, InTurn;
  }

  lemma CallbackStepsSimulate(c: Bridge.Tracks, b: Bridge.State, j: nat, s: Track.State, step: Track.Step)
    requires Lifecycle.LifecycleInv(s) && Projects(c, b, j, s) && Track.CanStep(s, step)
    requires Track.IsCallbackStep(step)
    ensures Simulates(c, b, j, Track.CallbackStep(s, step), Match(s, j, step))
  {
  }

  lemma ControllerStepsSimulate(c: Bridge.Tracks, b: Bridge.State, j: nat, s: Track.State, step: Track.Step)
    requires Lifecycle.LifecycleInv(s) && Projects(c, b, j, s) && Track.CanStep(s, step)
    requires Lifecycle.IsControllerStep(step) && BridgeAllows(b, j, s, step)
    ensures Simulates(c, b, j, Track.ControllerStep(s, step), Match(s, j, step))
  {
    assert (s.writers.Keys == c[j]) && (step.EnableOneWriter? || step.DisableOneWriter? ==> step.id in s.writers);
  }

  /** Every step of a track is a step of its bridge, or one the bridge does not see. */
  lemma TrackStepsAreBridgeSteps(c: Bridge.Tracks, b: Bridge.State, j: nat, s: Track.State, step: Track.Step)
    requires Lifecycle.LifecycleInv(s) && Projects(c, b, j, s)
    requires Track.CanStep(s, step) && BridgeAllows(b, j, s, step)
    ensures Simulates(c, b, j, Track.Apply(s, step), Match(s, j, step))
  {
    hide Simulates, Projects, Lifecycle.LifecycleInv, BridgeAllows, Match;
    if Track.IsCallbackStep(step) {
      CallbackStepsSimulate(c, b, j, s, step);
    } else if Track.IsWorkerStep(step) || step.StartWorker? {
      WorkerStepsSimulate(c, b, j, s, step);
    } else {
      ControllerStepsSimulate(c, b, j, s, step);
    }
  }

  /** The step is one of track j. */
  predicate Concerns(b: Bridge.State, step: Bridge.Step, j: nat) {
    match step
    case StartEnable => false
    case EndEnable => false
    case StartDisable => false
    case EndDisable => false
    case Lock(k) => k == j
    case Leave(k) => k == j
    case Begin(k) => k == j
    case TakeNothing(k, _) => k == j
    case TakeData(k) => k == j
    case Write(k, _) => k == j
    case Finish(k) => k == j
    case _ => !b.controller.Resting? && b.controller.i == j
  }

  /** The steps of the other tracks change nothing that the track can tell. */
  lemma OtherTracksDoNotShow(c: Bridge.Tracks, b: Bridge.State, j: nat, s: Track.State, step: Bridge.Step)
    requires Projects(c, b, j, s) && Bridge.CanStep(c, b, step) && !Concerns(b, step, j)
    ensures Projects(c, Bridge.Apply(c, b, step), j, s)
  {
  }

  // ----- All tracks of one bridge together

  /** The tracks, and the state of the bridge that their steps add up to. */
  datatype System = System(bridge: Bridge.State, tracks: seq<Track.State>)

  datatype Move = OfTrack(j: nat, step: Track.Step) | OfBridge(turn: Bridge.Step)

  predicate CanMove(c: Bridge.Tracks, s: System, move: Move) {
    match move
    case OfTrack(j, step) =>
      j < |s.tracks| && Track.CanStep(s.tracks[j], step) && BridgeAllows(s.bridge, j, s.tracks[j], step)
    case OfBridge(turn) =>
      (turn.StartEnable? || turn.EndEnable? || turn.StartDisable? || turn.EndDisable?)
      && Bridge.CanStep(c, s.bridge, turn)
  }

  /** Where the bridge takes no step of that kind, its state is left as it was. */
  function BridgeAfter(c: Bridge.Tracks, b: Bridge.State, m: Matched): Bridge.State {
    if m.One? && Bridge.CanStep(c, b, m.step) then Bridge.Apply(c, b, m.step) else b
  }

  function AfterMove(c: Bridge.Tracks, s: System, move: Move): System
    requires CanMove(c, s, move)
  {
    match move
    case OfTrack(j, step) =>
      System(BridgeAfter(c, s.bridge, Match(s.tracks[j], j, step)),
             s.tracks[j := Track.Apply(s.tracks[j], step)])
    case OfBridge(turn) => s.(bridge := Bridge.Apply(c, s.bridge, turn))
  }

  /** Tracks that nobody has enabled, whatever their readers hold already. */
  predicate Fresh(c: Bridge.Tracks, s: System) {
    && s.bridge == Bridge.Initial() && |s.tracks| == |c|
    && forall j :: 0 <= j < |c| ==>
         && s.tracks[j] == Track.Initial(s.tracks[j].queue, s.tracks[j].writers)
         && s.tracks[j].writers.Keys == c[j]
  }

  ghost predicate AreMoves(c: Bridge.Tracks, s: System, moves: seq<Move>)
    decreases |moves|
  {
    moves != [] ==> CanMove(c, s, moves[0]) && AreMoves(c, AfterMove(c, s, moves[0]), moves[1..])
  }

  ghost function AfterMoves(c: Bridge.Tracks, s: System, moves: seq<Move>): System
    requires AreMoves(c, s, moves)
    decreases |moves|
  {
    if moves == [] then s else AfterMoves(c, AfterMove(c, s, moves[0]), moves[1..])
  }

  ghost predicate Consistent(c: Bridge.Tracks, s: System) {
    && |s.tracks| == |c|
    && forall j :: 0 <= j < |c| ==> TrackFits(c, s, j)
  }

  ghost predicate TrackFits(c: Bridge.Tracks, s: System, j: nat)
    requires j < |s.tracks|
  {
    Projects(c, s.bridge, j, s.tracks[j]) && Lifecycle.OrderInv(s.tracks[j])
  }

  /** What a move is for the bridge. */
  function BridgeStepOf(s: System, move: Move): Matched
    requires move.OfTrack? ==> move.j < |s.tracks|
  {
    match move
    case OfTrack(j, step) => Match(s.tracks[j], j, step)
    case OfBridge(turn) => One(turn)
  }

  lemma MatchConcernsOnly(c: Bridge.Tracks, s: System, j: nat, k: nat, step: Track.Step)
    requires Consistent(c, s) && j < |c| && k != j
    requires Track.CanStep(s.tracks[j], step) && BridgeAllows(s.bridge, j, s.tracks[j], step)
    ensures var m := Match(s.tracks[j], j, step); m.One? ==> !Concerns(s.bridge, m.step, k)
  {
    assert TrackFits(c, s, j);
  }

  /** A move is one step of the bridge protocol or none, and every track still is what the bridge takes it for. */
  lemma MoveIsBridgeStep(c: Bridge.Tracks, s: System, move: Move)
    requires Consistent(c, s) && CanMove(c, s, move)
    ensures Consistent(c, AfterMove(c, s, move))
    ensures var m, b := BridgeStepOf(s, move), AfterMove(c, s, move).bridge;
            match m
            case Nothing => b == s.bridge
            case One(step) => Bridge.CanStep(c, s.bridge, step) && b == Bridge.Apply(c, s.bridge, step)
  {
    var t := AfterMove(c, s, move);
    if move.OfTrack? {
      var j := move.j;
      assert TrackFits(c, s, j);
      TrackStepsAreBridgeSteps(c, s.bridge, j, s.tracks[j], move.step);
      Theorems.StepKeepsOrder(s.tracks[j], move.step);
    }
    forall k | 0 <= k < |c| ensures TrackFits(c, t, k) {
      assert TrackFits(c, s, k);
      if move.OfTrack? && k != move.j {
        MatchConcernsOnly(c, s, move.j, k, move.step);
      }
      if BridgeStepOf(s, move).One? && (move.OfTrack? ==> k != move.j) {
        OtherTracksDoNotShow(c, s.bridge, k, s.tracks[k], BridgeStepOf(s, move).step);
      }
      hide Projects, Lifecycle.OrderInv, Match, Track.Apply, Track.CanStep, Bridge.Apply, Bridge.CanStep, Concerns;
    }
    hide *;
  }

  /** Every interleaving of the tracks of a bridge, enabled and disabled in turn, is a run of the bridge protocol. */
  lemma {:induction false} MovesAreABridgeRun(c: Bridge.Tracks, s: System, before: seq<Bridge.Step>, moves: seq<Move>)
    returns (steps: seq<Bridge.Step>)
    requires Consistent(c, s) && AreMoves(c, s, moves)
    requires Bridge.IsRun(c, before) && Bridge.After(c, before) == s.bridge
    ensures Consistent(c, AfterMoves(c, s, moves))
    ensures Bridge.IsRun(c, steps) && Bridge.After(c, steps) == AfterMoves(c, s, moves).bridge
    decreases |moves|
  {
    steps := before;
    if moves != [] {
      MoveIsBridgeStep(c, s, moves[0]);
      var m := BridgeStepOf(s, moves[0]);
      hide Consistent, CanMove, AfterMove, Bridge.IsRun, Bridge.After, Bridge.Apply, Bridge.CanStep;
      if m.One? {
        steps := Bridge.More(c, steps, m.step);
      }
      steps := MovesAreABridgeRun(c, AfterMove(c, s, moves[0]), steps, moves[1..]);
    }
  }

  lemma FreshIsConsistent(c: Bridge.Tracks, s: System)
    requires Fresh(c, s)
    ensures Consistent(c, s)
  {
    forall j | 0 <= j < |c| ensures TrackFits(c, s, j) {
      Lifecycle.InitialInv(s.tracks[j].queue, s.tracks[j].writers);
    }
  }

  /**
   So what the bridge protocol says of dropped messages is true of the tracks together: the delivery under way
   in track j meets a disabled writer exactly if an earlier track has turned it off in this pass of disable.
   */
  lemma DeliveryMeetsDisabledWriterExactly(c: Bridge.Tracks, s: System, moves: seq<Move>, j: nat, w: ParticipantId)
    requires Fresh(c, s) && AreMoves(c, s, moves) && j < |AfterMoves(c, s, moves).tracks|
    requires var worker := AfterMoves(c, s, moves).tracks[j].worker; worker.Writing? && w in worker.todo
    ensures var b := AfterMoves(c, s, moves).bridge;
            w !in b.writersOn <==> exists k: nat :: k < j && Bridge.HasTurnedOff(c, b, k, w)
  {
    FreshIsConsistent(c, s);
    var steps := MovesAreABridgeRun(c, s, [], moves);
    assert TrackFits(c, AfterMoves(c, s, moves), j);
    Bridge.WriteIsDroppedExactly(c, steps, j, w);
  }
}
