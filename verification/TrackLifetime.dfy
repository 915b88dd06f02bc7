/**
 The end of a track.  A bridge destroys a track when its last writer is removed; the pool keeps the slot of its
 transmit task, and the reader may be calling it back at that moment.
 */
module TrackLifetime {
  import opened DdsPipeTypes
  import opened TrackProtocol
  import opened TrackInvariant
  import opened TrackTheorems

  predicate IsDisableStep(step: Step) {
    step.StartDisable? || step.TransmissionOver? || step.DisableTheReader? || step.DisableOneWriter?
    || step.WritersDisabled?
  }

  /** The destructor disables the track, while pushers and pool go on; at the end the track is gone. */
  ghost predicate Destroys(s: State, steps: seq<Step>) {
    && IsRun(s, steps) && s.controller.Idle?
    && (forall k :: 0 <= k < |steps| && IsControllerStep(steps[k]) ==> IsDisableStep(steps[k]))
    && After(s, steps).controller.Idle? && !After(s, steps).enabled
  }

  /** Nothing comes in any more. */
  predicate PushersAtRest(steps: seq<Step>) {
    forall k :: 0 <= k < |steps| ==> !steps[k].Push?
  }

  /** The pool still has a task of the track, or runs one. */
  predicate TaskOutlives(s: State) {
    s.tasks > 0 || !s.worker.NoWorker?
  }

  /** A pusher is still inside the track's callback. */
  predicate CallbackOutlives(s: State) {
    !s.lock.Free?
  }

  // ----- Nothing left behind

  /** No task is waiting, no callback running, and a worker only before disable has waited for it. */
  predicate Clean(s: State) {
    s.tasks == 0 && s.lock.Free? && (s.worker.NoWorker? || s.enabled || s.controller.AwaitTransmission?)
  }

  lemma StepKeepsClean(s: State, step: Step)
    requires Clean(s) && CanStep(s, step) && !step.Push? && (IsControllerStep(step) ==> IsDisableStep(step))
    ensures Clean(Apply(s, step))
  {
  }

  lemma {:induction false} RunKeepsClean(s: State, steps: seq<Step>)
    requires Clean(s) && IsRun(s, steps) && PushersAtRest(steps)
    requires forall k :: 0 <= k < |steps| && IsControllerStep(steps[k]) ==> IsDisableStep(steps[k])
    ensures Clean(After(s, steps))
    decreases |steps|
  {
    hide CanStep, Apply, Clean, IsControllerStep, IsDisableStep;
    if steps != [] {
      StepKeepsClean(s, steps[0]);
      RunKeepsClean(Apply(s, steps[0]), steps[1..]);
    }
  }

  // ----- The destructor can always get to its end

  predicate IsDestructorStep(step: Step) {
    !step.Push? && (IsControllerStep(step) ==> IsDisableStep(step))
  }

  /** A run of worker and destructor alone, or of a callback under way. */
  ghost predicate Leads(s: State, steps: seq<Step>, t: State) {
    IsRun(s, steps) && After(s, steps) == t && forall k :: 0 <= k < |steps| ==> IsDestructorStep(steps[k])
  }

  lemma LeadsFirst(s: State, step: Step, rest: seq<Step>, t: State) returns (steps: seq<Step>)
    requires CanStep(s, step) && IsDestructorStep(step) && Leads(Apply(s, step), rest, t)
    ensures Leads(s, steps, t)
  {
    steps := [step] + rest;
    assert steps[1..] == rest;
    hide CanStep, Apply, IsDestructorStep;
  }

  lemma LeadsOn(s: State, steps: seq<Step>, t: State, more: seq<Step>, u: State) returns (all: seq<Step>)
    requires Leads(s, steps, t) && Leads(t, more, u)
    ensures Leads(s, all, u)
  {
    RunsConcatenate(s, steps, more);
    all := steps + more;
    hide IsRun, After, IsDestructorStep;
  }

  /** Steps left to the worker of a disabled track. */
  function Ahead(s: State): nat {
    match s.worker
    case NoWorker => 0
    case Leaving => 1
    case Looping => 2
    case Subtracting => 3
    case Writing(_, todo) => |todo| + 3
    case Dequeuing => |s.writers| + 4
    case Taking => |s.writers| + 5
    case Storing => |s.writers| + 6
  }

  /** Nobody but the worker is under way, and the destructor waits for it. */
  predicate Waiting(s: State) {
    !s.enabled && s.controller.AwaitTransmission? && s.lock.Free?
  }

  /** The step brings the worker nearer to its end. */
  predicate MovesOn(s: State, step: Step) {
    && CanStep(s, step) && IsDestructorStep(step)
    && Waiting(Apply(s, step)) && Ahead(Apply(s, step)) < Ahead(s) && Apply(s, step).tasks == s.tasks
  }

  lemma TakeMovesOn(s: State)
    requires Waiting(s) && s.worker.Dequeuing?
    ensures MovesOn(s, WorkerTake)
  {
    assert |s.writers.Keys| == |s.writers|;
  }

  lemma WriteMovesOn(s: State, id: ParticipantId)
    requires Waiting(s) && s.worker.Writing? && id in s.worker.todo
    ensures MovesOn(s, WorkerWrite(id))
  {
    assert |s.worker.todo - {id}| == |s.worker.todo| - 1;
  }

  lemma OthersMoveOn(s: State, step: Step)
    requires Waiting(s) && CanStep(s, step) && IsWorkerStep(step) && !step.WorkerTake? && !step.WorkerWrite?
    ensures MovesOn(s, step)
  {
  }

  lemma WorkerMovesOn(s: State) returns (step: Step)
    requires Waiting(s) && !s.worker.NoWorker?
    ensures MovesOn(s, step)
  {
    hide MovesOn;
    match s.worker
    case Dequeuing =>
      step := WorkerTake;
      TakeMovesOn(s);
    case Writing(_, todo) =>
      if id :| id in todo {
        step := WorkerWrite(id);
        WriteMovesOn(s, id);
      } else {
        step := WorkerWritten;
        OthersMoveOn(s, step);
      }
    case other =>
      step := match other
        case Looping => WorkerCheck
        case Storing => WorkerStore
        case Taking => WorkerEnterReader
        case Subtracting => WorkerSubtract
        case _ => WorkerLeave;
      OthersMoveOn(s, step);
  }

  lemma {:induction false} WorkerLeaves(s: State) returns (steps: seq<Step>, t: State)
    requires Waiting(s)
    ensures Leads(s, steps, t) && Waiting(t) && t.worker.NoWorker? && t.tasks == s.tasks
    decreases Ahead(s)
  {
    if s.worker.NoWorker? {
      steps, t := [], s;
    } else {
      var step := WorkerMovesOn(s);
      var rest: seq<Step>;
      rest, t := WorkerLeaves(Apply(s, step));
      steps := LeadsFirst(s, step, rest, t);
    }
  }

  lemma {:induction false} WritersDisable(s: State, left: set<ParticipantId>) returns (steps: seq<Step>, t: State)
    requires s.controller == DisableWriters(left)
    ensures Leads(s, steps, t) && t == s.(controller := Idle, writers := t.writers)
    decreases left
  {
    var rest: seq<Step>;
    if id :| id in left {
      rest, t := WritersDisable(Apply(s, DisableOneWriter(id)), left - {id});
      steps := LeadsFirst(s, DisableOneWriter(id), rest, t);
    } else {
      t := Apply(s, WritersDisabled);
      steps := LeadsFirst(s, WritersDisabled, [], t);
    }
  }

  /** Past its wait the destructor needs nobody. */
  lemma DisableEnds(s: State) returns (steps: seq<Step>, t: State)
    requires !s.enabled && s.controller.AwaitTransmission? && s.worker.NoWorker?
    ensures Leads(s, steps, t) && t.controller.Idle? && !t.enabled && t.tasks == s.tasks && t.lock == s.lock
  {
    var s1 := Apply(s, TransmissionOver);
    var s2 := Apply(s1, DisableTheReader);
    steps, t := WritersDisable(s2, s2.writers.Keys);
    hide Leads;
    steps := LeadsFirst(s1, DisableTheReader, steps, t);
    steps := LeadsFirst(s, TransmissionOver, steps, t);
  }

  lemma LeadsMeansDestroys(s: State, steps: seq<Step>, t: State)
    requires Leads(s, steps, t) && s.controller.Idle? && t.controller.Idle? && !t.enabled
    ensures Destroys(s, steps) && PushersAtRest(steps) && After(s, steps) == t
  {
    forall k | 0 <= k < |steps| ensures IsDestructorStep(steps[k]) {
    }
    hide IsRun, After, IsControllerStep, IsDisableStep;
  }

  /** The track is destroyed while its tasks wait in the pool. */
  lemma TasksStay(s: State) returns (steps: seq<Step>)
    requires s.controller.Idle? && s.lock.Free?
    ensures Destroys(s, steps) && PushersAtRest(steps) && After(s, steps).tasks == s.tasks
    ensures !s.enabled ==> steps == []
  {
    if s.enabled {
      var s1 := Apply(s, StartDisable);
      var leave, s2 := WorkerLeaves(s1);
      var end, t := DisableEnds(s2);
      steps := LeadsOn(s1, leave, s2, end, t);
      hide Leads;
      steps := LeadsFirst(s, StartDisable, steps, t);
      LeadsMeansDestroys(s, steps, t);
    } else {
      steps := [];
    }
  }

  /**
   From any state of a track with its reader at rest: destroying it can leave something behind exactly if a task
   is still queued, or if the track is disabled already and a worker has not ended.
   */
  lemma NothingOutlivesExactly(s: State)
    requires s.controller.Idle? && s.lock.Free?
    ensures (forall steps :: Destroys(s, steps) && PushersAtRest(steps) ==>
               !TaskOutlives(After(s, steps)) && !CallbackOutlives(After(s, steps)))
       <==> s.tasks == 0 && (s.enabled || s.worker.NoWorker?)
  {
    if s.tasks == 0 && (s.enabled || s.worker.NoWorker?) {
      forall steps | Destroys(s, steps) && PushersAtRest(steps)
        ensures !TaskOutlives(After(s, steps)) && !CallbackOutlives(After(s, steps))
      {
        RunKeepsClean(s, steps);
      }
    } else {
      var steps := TasksStay(s);
      assert TaskOutlives(After(s, steps));
    }
  }

  /**
   The status word tells, as long as no enable has reset it over an older task: an enabled track at
   no_more_data leaves nothing behind.
   */
  lemma NoMoreDataLeavesNothing(s: State, before: seq<Step>, steps: seq<Step>)
    requires Inv(s) && s.status == NO_MORE_DATA && Outstanding(s) == 0
    requires IsRun(s, before) && Bounded(s, before, MAX_NOTES)
    requires forall k :: 0 <= k < |before| ==> !before[k].StoreNoMoreData?
    requires var t := After(s, before); t.enabled && t.status == NO_MORE_DATA && t.lock.Free?
    requires Destroys(After(s, before), steps) && PushersAtRest(steps)
    ensures var u := After(After(s, before), steps); !TaskOutlives(u) && !CallbackOutlives(u)
  {
    SingleTask(s, before);
    RunKeepsClean(After(s, before), steps);
  }

  // ----- Pushers that go on

  function StepsOf(pc: CallbackPc): nat {
    match pc
    case CheckEnabled => 3
    case AddStatus => 2
    case EmitTask => 1
  }

  lemma {:induction false} CallbackFinishes(s: State) returns (steps: seq<Step>, t: State)
    requires s.controller.Idle? && s.lock.HeldByPusher?
    ensures Leads(s, steps, t) && t.controller.Idle? && t.lock.Free?
    decreases StepsOf(s.lock.pc)
  {
    var step := match s.lock.pc
      case CheckEnabled => CallbackCheck
      case AddStatus => CallbackAdd
      case EmitTask => CallbackEmit;
    var next := Apply(s, step);
    if next.lock.Free? {
      t := next;
      steps := LeadsFirst(s, step, [], t);
    } else {
      var rest: seq<Step>;
      rest, t := CallbackFinishes(next);
      steps := LeadsFirst(s, step, rest, t);
    }
  }

  /** The same with a message that comes in at any time. */
  ghost predicate LeadsWithPush(s: State, steps: seq<Step>, t: State) {
    && IsRun(s, steps) && After(s, steps) == t
    && forall k :: 0 <= k < |steps| ==> steps[k].Push? || IsDestructorStep(steps[k])
  }

  lemma PushBetween(s: State, before: seq<Step>, t: State, m: Message, after: seq<Step>, u: State)
    returns (steps: seq<Step>)
    requires Leads(s, before, t) && t.lock.Free? && Leads(Apply(t, Push(m)), after, u)
    ensures LeadsWithPush(s, steps, u)
  {
    var rest := [Push(m)] + after;
    assert rest[1..] == after && IsRun(t, rest) && After(t, rest) == u;
    steps := before + rest;
    RunsConcatenate(s, before, rest);
    hide IsRun, After, IsDestructorStep;
  }

  /** A disabled track, or one whose destructor has waited for the worker, with a callback begun at that moment. */
  lemma PushDuringDestruction(s: State, m: Message) returns (steps: seq<Step>, t: State)
    requires s.controller.Idle? && s.lock.Free?
    ensures LeadsWithPush(s, steps, t) && t.controller.Idle? && !t.enabled && CallbackOutlives(t)
  {
    if s.enabled {
      var s1 := Apply(s, StartDisable);
      var leave, s2 := WorkerLeaves(s1);
      var end: seq<Step>;
      end, t := DisableEnds(Apply(s2, Push(m)));
      leave := LeadsFirst(s, StartDisable, leave, s2);
      steps := PushBetween(s, leave, s2, m, end, t);
    } else {
      t := Apply(s, Push(m));
      steps := PushBetween(s, [], s, m, [], t);
    }
  }

  lemma LeadsThenPush(s: State, before: seq<Step>, t: State, after: seq<Step>, u: State) returns (steps: seq<Step>)
    requires Leads(s, before, t) && LeadsWithPush(t, after, u)
    requires s.controller.Idle? && u.controller.Idle? && !u.enabled
    ensures Destroys(s, steps) && After(s, steps) == u
  {
    steps := before + after;
    RunsConcatenate(s, before, after);
    forall k | 0 <= k < |steps| && IsControllerStep(steps[k]) ensures IsDisableStep(steps[k]) {
      assert k < |before| ==> steps[k] == before[k] && IsDestructorStep(before[k]);
      assert k >= |before| ==> steps[k] == after[k - |before|];
    }
    hide IsRun, After;
  }

  /** Without the pushers at rest there is no telling: in every reachable state, a callback can outlive the track. */
  lemma CallbacksCanOutlive(queue: seq<Message>, writers: map<ParticipantId, bool>, before: seq<Step>)
    returns (steps: seq<Step>)
    requires IsRun(Initial(queue, writers), before) && After(Initial(queue, writers), before).controller.Idle?
    ensures var s := After(Initial(queue, writers), before);
            Destroys(s, steps) && CallbackOutlives(After(s, steps))
  {
    var s := After(Initial(queue, writers), before);
    InitialInv(queue, writers);
    RunKeepsOrder(Initial(queue, writers), before);
    assert !s.lock.HeldByEnable?;
    hide IsRun, After, Leads, LeadsWithPush, OrderInv, Destroys;
    var first: seq<Step>, t := [], s;
    if s.lock.Free? {
      NoStepsLead(s);
    } else {
      first, t := CallbackFinishes(s);
    }
    var second, u := PushDuringDestruction(t, []);
    steps := LeadsThenPush(s, first, t, second, u);
  }

  lemma NoStepsLead(s: State)
    ensures Leads(s, [], s)
  {
  }
}
