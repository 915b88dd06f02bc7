/**
 The tracks of one bridge share its writers.  The bridge enables and disables its tracks one after the other,
 while a worker of the pool may be forwarding in each: one step per critical section or access that another
 thread can observe.
 */
module BridgeProtocol {
  import opened DdsBridges
  import opened DdsPipeTypes
  import opened RoutesConfiguration

  /** The writers of each track, in the order in which the bridge visits its tracks. */
  type Tracks = seq<set<ParticipantId>>

  /** Whoever holds the transmission mutex of a track. */
  datatype Worker = Nobody | Checking | Taking | Writing(left: set<ParticipantId>)

  /** What the bridge is doing to track `i`; `left` are the writers it has not reached yet. */
  datatype Controller =
    | Resting
    | Enabling(i: nat)
    | EnablingWriters(i: nat, left: set<ParticipantId>)
    | Disabling(i: nat)
    | AwaitingWorker(i: nat)
    | DisablingReader(i: nat)
    | DisablingWriters(i: nat, left: set<ParticipantId>)

  datatype State = State(
    enabled: bool,
    controller: Controller,
    tracksOn: set<nat>,
    readersOn: set<nat>,
    writersOn: set<ParticipantId>,
    workers: map<nat, Worker>)

  datatype Step =
    | StartEnable
    | RaiseFlag
    | EnableWriter(w: ParticipantId)
    | EnableReader
    | EndEnable
    | StartDisable
    | LowerFlag
    | PassWait
    | DisableReader
    | DisableWriter(w: ParticipantId)
    | NextTrack
    | EndDisable
    | Lock(j: nat)
    | Leave(j: nat)
    | Begin(j: nat)
    | TakeNothing(j: nat, again: bool)
    | TakeData(j: nat)
    | Write(j: nat, w: ParticipantId)
    | Finish(j: nat)

  function Initial(): State {
    State(false, Resting, {}, {}, {}, map[])
  }

  function WorkerOf(s: State, j: nat): Worker {
    if j in s.workers then s.workers[j] else Nobody
  }

  predicate CanStep(c: Tracks, s: State, step: Step) {
    match step
    case StartEnable => s.controller.Resting? && !s.enabled
    case RaiseFlag => s.controller.Enabling? && s.controller.i < |c|
    case EnableWriter(w) => s.controller.EnablingWriters? && w in s.controller.left
    case EnableReader => s.controller.EnablingWriters? && s.controller.left == {}
    case EndEnable => s.controller == Enabling(|c|)
    case StartDisable => s.controller.Resting? && s.enabled
    case LowerFlag => s.controller.Disabling? && s.controller.i < |c|
    case PassWait => s.controller.AwaitingWorker? && WorkerOf(s, s.controller.i).Nobody?
    case DisableReader => s.controller.DisablingReader? && s.controller.i < |c|
    case DisableWriter(w) => s.controller.DisablingWriters? && w in s.controller.left
    case NextTrack => s.controller.DisablingWriters? && s.controller.left == {}
    case EndDisable => s.controller == Disabling(|c|)
    case Lock(j) => j < |c| && WorkerOf(s, j).Nobody?
    case Leave(j) => WorkerOf(s, j).Checking? && j !in s.tracksOn
    case Begin(j) => WorkerOf(s, j).Checking? && j in s.tracksOn
    case TakeNothing(j, again) => WorkerOf(s, j).Taking? && (again || j in s.readersOn)
    case TakeData(j) => j < |c| && WorkerOf(s, j).Taking? && j in s.readersOn
    case Write(j, w) => WorkerOf(s, j).Writing? && w in WorkerOf(s, j).left
    case Finish(j) => WorkerOf(s, j) == Writing({})
  }

  function Put(s: State, j: nat, worker: Worker): State {
    s.(workers := s.workers[j := worker])
  }

  function Apply(c: Tracks, s: State, step: Step): State
    requires CanStep(c, s, step)
  {
    match step
    case StartEnable => s.(controller := Enabling(0))
    case RaiseFlag =>
      var i := s.controller.i;
      s.(tracksOn := s.tracksOn + {i}, controller := EnablingWriters(i, c[i]))
    case EnableWriter(w) =>
      s.(writersOn := s.writersOn + {w}, controller := EnablingWriters(s.controller.i, s.controller.left - {w}))
    case EnableReader => s.(readersOn := s.readersOn + {s.controller.i}, controller := Enabling(s.controller.i + 1))
    case EndEnable => s.(enabled := true, controller := Resting)
    case StartDisable => s.(controller := Disabling(0))
    case LowerFlag => s.(tracksOn := s.tracksOn - {s.controller.i}, controller := AwaitingWorker(s.controller.i))
    case PassWait => s.(controller := DisablingReader(s.controller.i))
    case DisableReader =>
      var i := s.controller.i;
      s.(readersOn := s.readersOn - {i}, controller := DisablingWriters(i, c[i]))
    case DisableWriter(w) =>
      s.(writersOn := s.writersOn - {w}, controller := DisablingWriters(s.controller.i, s.controller.left - {w}))
    case NextTrack => s.(controller := Disabling(s.controller.i + 1))
    case EndDisable => s.(enabled := false, controller := Resting)
    case Lock(j) => Put(s, j, Checking)
    case Leave(j) => Put(s, j, Nobody)
    case Begin(j) => Put(s, j, Taking)
    case TakeNothing(j, again) => Put(s, j, if again then Checking else Nobody)
    case TakeData(j) => Put(s, j, Writing(c[j]))
    case Write(j, w) => Put(s, j, Writing(WorkerOf(s, j).left - {w}))
    case Finish(j) => Put(s, j, Checking)
  }

  ghost predicate IsRun(c: Tracks, steps: seq<Step>)
    decreases |steps|, 0
  {
    steps != [] ==>
      && IsRun(c, steps[..|steps| - 1])
      && CanStep(c, After(c, steps[..|steps| - 1]), steps[|steps| - 1])
  }

  /** Where a run from the start ends. */
  ghost function After(c: Tracks, steps: seq<Step>): State
    requires IsRun(c, steps)
    decreases |steps|, 1
  {
    if steps == [] then Initial() else Apply(c, After(c, steps[..|steps| - 1]), steps[|steps| - 1])
  }

  /** The worker of track j is about to write to a writer that is disabled, which drops the message for it. */
  predicate Drops(s: State, j: nat, w: ParticipantId) {
    WorkerOf(s, j).Writing? && w in WorkerOf(s, j).left && w !in s.writersOn
  }

  /** In the pass of disable under way, track k has already turned writer w off. */
  predicate HasTurnedOff(c: Tracks, s: State, k: nat, w: ParticipantId) {
    && k < |c| && w in c[k]
    && match s.controller
       case Disabling(i) => k < i
       case AwaitingWorker(i) => k < i
       case DisablingReader(i) => k < i
       case DisablingWriters(i, left) => k < i || (k == i && w !in left)
       case _ => false
  }

  // ----- The invariant

  /** Track j has been enabled as far as its flag, and its disable has not waited for its worker yet. */
  predicate Running(s: State, j: nat) {
    match s.controller
    case Resting => s.enabled
    case Enabling(i) => j < i
    case EnablingWriters(i, _) => j <= i
    case Disabling(i) => j >= i
    case AwaitingWorker(i) => j >= i
    case DisablingReader(i) => j > i
    case DisablingWriters(i, _) => j > i
  }

  predicate HasFlag(s: State, j: nat) {
    Running(s, j) && s.controller != AwaitingWorker(j)
  }

  predicate HasReader(s: State, j: nat) {
    match s.controller
    case EnablingWriters(i, _) => j < i
    case DisablingReader(i) => j >= i
    case _ => Running(s, j)
  }

  /** In this pass of enable, or in the last one, track k has turned writer w on. */
  predicate HasTurnedOn(c: Tracks, s: State, k: nat, w: ParticipantId) {
    && k < |c| && w in c[k]
    && match s.controller
       case Resting => s.enabled
       case Enabling(i) => k < i
       case EnablingWriters(i, left) => k < i || (k == i && w !in left)
       case _ => true
  }

  predicate ControllerInv(c: Tracks, s: State) {
    match s.controller
    case Resting => true
    case Enabling(i) => i <= |c|
    case Disabling(i) => i <= |c|
    case EnablingWriters(i, left) => i < |c| && left <= c[i]
    case DisablingWriters(i, left) => i < |c| && left <= c[i]
    case AwaitingWorker(i) => i < |c|
    case DisablingReader(i) => i < |c|
  }

  ghost predicate FlagsInv(c: Tracks, s: State) {
    && (forall j :: j in s.tracksOn ==> j < |c| && HasFlag(s, j))
    && (forall j :: j in s.readersOn ==> j < |c| && HasReader(s, j))
  }

  /** A worker past the check of its track's flag keeps the disable of that track waiting. */
  predicate WorkerInv(c: Tracks, s: State, j: nat) {
    match WorkerOf(s, j)
    case Taking => j < |c| && Running(s, j)
    case Writing(left) => j < |c| && left <= c[j] && Running(s, j) && HasReader(s, j)
    case _ => true
  }

  /** A writer is enabled exactly if a track has turned it on and none has turned it off since. */
  ghost predicate WritersInv(c: Tracks, s: State) {
    forall w :: WriterInv(c, s, w)
  }

  ghost predicate Inv(c: Tracks, s: State) {
    ControllerInv(c, s) && FlagsInv(c, s) && (forall j: nat :: WorkerInv(c, s, j)) && WritersInv(c, s)
  }

  lemma StepKeepsFlags(c: Tracks, s: State, step: Step)
    requires ControllerInv(c, s) && FlagsInv(c, s) && CanStep(c, s, step)
    ensures ControllerInv(c, Apply(c, s, step)) && FlagsInv(c, Apply(c, s, step))
  {
  }

  lemma StepKeepsWorker(c: Tracks, s: State, step: Step, j: nat)
    requires ControllerInv(c, s) && FlagsInv(c, s) && WorkerInv(c, s, j) && CanStep(c, s, step)
    ensures WorkerInv(c, Apply(c, s, step), j)
  {
  }

  /** What one step changes of what the tracks have turned on and off. */
  lemma StepTurns(c: Tracks, s: State, step: Step, k: nat, w: ParticipantId)
    requires ControllerInv(c, s) && CanStep(c, s, step)
    ensures var next := Apply(c, s, step);
            && (step == EndDisable || (HasTurnedOn(c, next, k, w) <==>
                HasTurnedOn(c, s, k, w) || (k < |c| && step == EnableWriter(w) && k == s.controller.i)))
            && (step == EndDisable || (HasTurnedOff(c, next, k, w) <==>
                HasTurnedOff(c, s, k, w) || (k < |c| && step == DisableWriter(w) && k == s.controller.i)))
  {
  }

  ghost predicate WriterInv(c: Tracks, s: State, w: ParticipantId) {
    w in s.writersOn <==> (exists k: nat :: HasTurnedOn(c, s, k, w)) && !exists k: nat :: HasTurnedOff(c, s, k, w)
  }

  lemma StepKeepsWriter(c: Tracks, s: State, step: Step, w: ParticipantId)
    requires ControllerInv(c, s) && WriterInv(c, s, w) && CanStep(c, s, step)
    ensures WriterInv(c, Apply(c, s, step), w)
  {
    var next := Apply(c, s, step);
    forall k: nat {
      StepTurns(c, s, step, k, w);
    }
    if step == EndDisable {
      assert forall k: nat :: HasTurnedOn(c, s, k, w) ==> HasTurnedOff(c, s, k, w);
      assert forall k: nat :: !HasTurnedOn(c, next, k, w);
    } else if step == EnableWriter(w) {
      assert HasTurnedOn(c, next, s.controller.i, w);
      assert forall k: nat :: !HasTurnedOff(c, next, k, w);
    } else if step == DisableWriter(w) {
      assert HasTurnedOff(c, next, s.controller.i, w);
    } else {
      assert forall k: nat :: HasTurnedOn(c, next, k, w) <==> HasTurnedOn(c, s, k, w);
      assert forall k: nat :: HasTurnedOff(c, next, k, w) <==> HasTurnedOff(c, s, k, w);
      assert w in next.writersOn <==> w in s.writersOn;
    }
  }

  lemma {:induction false} RunKeepsInv(c: Tracks, steps: seq<Step>)
    requires IsRun(c, steps)
    ensures Inv(c, After(c, steps))
    decreases |steps|
  {
    if steps != [] {
      var earlier, step := steps[..|steps| - 1], steps[|steps| - 1];
      RunKeepsInv(c, earlier);
      StepKeepsFlags(c, After(c, earlier), step);
      forall j: nat ensures WorkerInv(c, After(c, steps), j) {
        StepKeepsWorker(c, After(c, earlier), step, j);
      }
      forall w ensures WriterInv(c, After(c, steps), w) {
        StepKeepsWriter(c, After(c, earlier), step, w);
      }
    }
  }

  // ----- When a message is dropped

  /**
   In every interleaving: a worker forwarding for track j meets a disabled writer exactly if the bridge is
   being disabled and an earlier track of it has already turned that writer off.
   */
  lemma WriteIsDroppedExactly(c: Tracks, steps: seq<Step>, j: nat, w: ParticipantId)
    requires IsRun(c, steps)
    requires var worker := WorkerOf(After(c, steps), j); worker.Writing? && w in worker.left
    ensures var s := After(c, steps);
            Drops(s, j, w) <==> exists k: nat :: k < j && HasTurnedOff(c, s, k, w)
  {
    RunKeepsInv(c, steps);
    var s := After(c, steps);
    assert WorkerInv(c, s, j) && WriterInv(c, s, w);
    assert HasTurnedOn(c, s, j, w);
    if k: nat :| HasTurnedOff(c, s, k, w) {
      assert k < j;
    }
  }

  /** Tracks k and j of the bridge both lead to w, and the bridge visits k first. */
  predicate SharedBefore(c: Tracks, k: nat, j: nat, w: ParticipantId) {
    k < j < |c| && w in c[k] && w in c[j]
  }

  ghost predicate IsDroppingRun(c: Tracks, steps: seq<Step>, j: nat, w: ParticipantId) {
    IsRun(c, steps) && Drops(After(c, steps), j, w)
  }

  lemma More(c: Tracks, steps: seq<Step>, step: Step) returns (longer: seq<Step>)
    requires IsRun(c, steps) && CanStep(c, After(c, steps), step)
    ensures IsRun(c, longer) && After(c, longer) == Apply(c, After(c, steps), step)
  {
    longer := steps + [step];
    assert longer[..|steps|] == steps;
  }

  lemma {:induction false} AllWritersOn(c: Tracks, steps: seq<Step>, i: nat, left: set<ParticipantId>)
    returns (longer: seq<Step>)
    requires IsRun(c, steps) && After(c, steps).controller == EnablingWriters(i, left)
    ensures IsRun(c, longer)
    ensures var s := After(c, steps);
            After(c, longer) == s.(writersOn := s.writersOn + left, controller := EnablingWriters(i, {}))
    decreases left
  {
    if w :| w in left {
      longer := More(c, steps, EnableWriter(w));
      longer := AllWritersOn(c, longer, i, left - {w});
      assert After(c, steps).writersOn + {w} + (left - {w}) == After(c, steps).writersOn + left;
    } else {
      longer := steps;
      assert After(c, steps).writersOn + left == After(c, steps).writersOn;
    }
  }

  lemma {:induction false} AllWritersOff(c: Tracks, steps: seq<Step>, i: nat, left: set<ParticipantId>)
    returns (longer: seq<Step>)
    requires IsRun(c, steps) && After(c, steps).controller == DisablingWriters(i, left)
    ensures IsRun(c, longer)
    ensures var s := After(c, steps);
            After(c, longer) == s.(writersOn := s.writersOn - left, controller := DisablingWriters(i, {}))
    decreases left
  {
    if w :| w in left {
      longer := More(c, steps, DisableWriter(w));
      longer := AllWritersOff(c, longer, i, left - {w});
      assert After(c, steps).writersOn - {w} - (left - {w}) == After(c, steps).writersOn - left;
    } else {
      longer := steps;
      assert After(c, steps).writersOn - left == After(c, steps).writersOn;
    }
  }

  /** The first n tracks are enabled, and no worker has started. */
  lemma {:induction false} FirstTracksOn(c: Tracks, n: nat) returns (steps: seq<Step>)
    requires n <= |c|
    ensures IsRun(c, steps)
    ensures var s := After(c, steps);
            && s.controller == Enabling(n) && s.workers == map[]
            && forall j :: 0 <= j < n ==> j in s.tracksOn && j in s.readersOn
    decreases n
  {
    if n == 0 {
      steps := More(c, [], StartEnable);
    } else {
      steps := FirstTracksOn(c, n - 1);
      steps := More(c, steps, RaiseFlag);
      steps := AllWritersOn(c, steps, n - 1, c[n - 1]);
      steps := More(c, steps, EnableReader);
    }
  }

  /** In the enabled bridge, the worker of track j has taken a message and written it to nobody yet. */
  lemma Busy(c: Tracks, j: nat) returns (steps: seq<Step>)
    requires j < |c|
    ensures IsRun(c, steps)
    ensures var s := After(c, steps);
            s.enabled && s.controller.Resting? && s.workers == map[j := Writing(c[j])]
  {
    hide IsRun, After;
    steps := FirstTracksOn(c, |c|);
    steps := More(c, steps, EndEnable);
    steps := More(c, steps, Lock(j));
    steps := More(c, steps, Begin(j));
    steps := More(c, steps, TakeData(j));
  }

  /** Disabling one track that has no worker. */
  lemma OneTrackOff(c: Tracks, steps: seq<Step>, i: nat) returns (longer: seq<Step>)
    requires IsRun(c, steps) && i < |c|
    requires After(c, steps).controller == Disabling(i) && WorkerOf(After(c, steps), i).Nobody?
    ensures IsRun(c, longer)
    ensures After(c, longer).controller == Disabling(i + 1) && After(c, longer).workers == After(c, steps).workers
  {
    hide IsRun, After;
    longer := More(c, steps, LowerFlag);
    longer := More(c, longer, PassWait);
    longer := More(c, longer, DisableReader);
    longer := AllWritersOff(c, longer, i, c[i]);
    longer := More(c, longer, NextTrack);
  }

  /** The same worker of track j when the first n tracks are off. */
  lemma {:induction false} FirstTracksOff(c: Tracks, j: nat, n: nat) returns (steps: seq<Step>)
    requires n <= j < |c|
    ensures IsRun(c, steps)
    ensures After(c, steps).controller == Disabling(n) && After(c, steps).workers == map[j := Writing(c[j])]
    decreases n
  {
    if n == 0 {
      steps := Busy(c, j);
      steps := More(c, steps, StartDisable);
    } else {
      steps := FirstTracksOff(c, j, n - 1);
      steps := OneTrackOff(c, steps, n - 1);
    }
  }

  /** Track j can lose a message to w exactly if an earlier track shares w with it. */
  lemma DropNeedsASharedWriterExactly(c: Tracks, j: nat, w: ParticipantId)
    ensures (exists steps :: IsDroppingRun(c, steps, j, w)) <==> exists k: nat :: SharedBefore(c, k, j, w)
  {
    if k: nat :| SharedBefore(c, k, j, w) {
      var steps := FirstTracksOff(c, j, k + 1);
      assert HasTurnedOff(c, After(c, steps), k, w);
      WriteIsDroppedExactly(c, steps, j, w);
      assert IsDroppingRun(c, steps, j, w);
    }
    if steps :| IsDroppingRun(c, steps, j, w) {
      WriteIsDroppedExactly(c, steps, j, w);
      RunKeepsInv(c, steps);
      assert WorkerInv(c, After(c, steps), j);
      var k: nat :| k < j && HasTurnedOff(c, After(c, steps), k, w);
      assert SharedBefore(c, k, j, w);
    }
  }

  /** So no message is dropped in any run exactly if no two tracks of the bridge lead to the same writer. */
  lemma NothingIsDroppedExactly(c: Tracks)
    ensures (forall steps, j: nat, w :: !IsDroppingRun(c, steps, j, w))
       <==> !exists k: nat, j: nat, w :: SharedBefore(c, k, j, w)
  {
    if exists k: nat, j: nat, w :: SharedBefore(c, k, j, w) {
      var k: nat, j: nat, w :| SharedBefore(c, k, j, w);
      DropNeedsASharedWriterExactly(c, j, w);
      var steps :| IsDroppingRun(c, steps, j, w);
    } else {
      forall steps, j: nat, w ensures !IsDroppingRun(c, steps, j, w) {
        DropNeedsASharedWriterExactly(c, j, w);
        assert forall k: nat :: !SharedBefore(c, k, j, w);
      }
    }
  }

  // ----- The tracks the routes make

  predicate Distinct(ids: seq<ParticipantId>) {
    forall k, j :: 0 <= k < j < |ids| ==> ids[k] != ids[j]
  }

  /** The tracks of a bridge that has every writer, by the order of their readers. */
  function TracksOf(
    participants: Participants, routes: Routes, writers: map<ParticipantId, WriterHandle>, ids: seq<ParticipantId>)
    : (c: Tracks)
    ensures |c| == |ids|
    ensures forall k :: 0 <= k < |ids| ==> c[k] == Due(participants, routes, writers, ids[k]).Keys
  {
    seq(|ids|, k requires 0 <= k < |ids| => Due(participants, routes, writers, ids[k]).Keys)
  }

  lemma EveryoneElseIsSharedFromThreeOn(c: Tracks, ids: seq<ParticipantId>, all: set<ParticipantId>)
    requires Distinct(ids) && (forall p :: p in all <==> p in ids) && |c| == |ids|
    requires forall k :: 0 <= k < |ids| ==> c[k] == all - {ids[k]}
    ensures (exists k: nat, j: nat, w :: SharedBefore(c, k, j, w)) <==> |ids| > 2
  {
    if |ids| > 2 {
      assert SharedBefore(c, 0, 1, ids[2]);
    }
  }

  /** Without routes and repeaters, a bridge with a writer for everybody is safe exactly up to two participants. */
  lemma DefaultRoutesDropFromThreeOn(
    participants: Participants, writers: map<ParticipantId, WriterHandle>, ids: seq<ParticipantId>)
    requires Distinct(ids) && (forall p :: p in participants <==> p in ids)
    requires writers.Keys == participants.Keys && forall p :: p in participants ==> !participants[p]
    ensures var c := TracksOf(participants, map[], writers, ids);
            (forall steps, j: nat, w :: !IsDroppingRun(c, steps, j, w)) <==> |ids| <= 2
  {
    var c := TracksOf(participants, map[], writers, ids);
    hide IsDroppingRun, SharedBefore, TracksOf, Distinct;
    NothingIsDroppedExactly(c);
    forall k | 0 <= k < |ids| ensures c[k] == participants.Keys - {ids[k]} {
      assert ids[k] in ids;
    }
    EveryoneElseIsSharedFromThreeOn(c, ids, participants.Keys);
  }
}
