/** The guarantees of the Track protocol, over every run. */
module TrackTheorems {
  import opened DdsPipeTypes
  import opened TrackProtocol
  import opened TrackInvariant

  /** Order and lifecycle do not depend on the status word: every step keeps them, bounded or not. */
  lemma StepKeepsOrder(s: State, step: Step)
    requires OrderInv(s) && CanStep(s, step)
    ensures OrderInv(Apply(s, step))
  {
    hide LifecycleInv, HistoryInv, CanStep, Apply;
    if IsCallbackStep(step) {
      CallbackKeepsLifecycle(s, step);
      CallbackKeepsHistory(s, step);
    } else if IsWorkerStep(step) || step.StartWorker? {
      WorkerKeepsLifecycle(s, step);
      WorkerKeepsHistory(s, step);
    } else {
      ControllerKeepsLifecycle(s, step);
      ControllerKeepsHistory(s, step);
    }
  }

  lemma {:induction false} RunKeepsOrder(s: State, steps: seq<Step>)
    requires OrderInv(s) && IsRun(s, steps)
    ensures OrderInv(After(s, steps))
    decreases |steps|
  {
    hide OrderInv, Apply, CanStep;
    if steps != [] {
      StepKeepsOrder(s, steps[0]);
      RunKeepsOrder(Apply(s, steps[0]), steps[1..]);
    }
  }

  lemma StepKeepsInv(s: State, step: Step)
    requires Inv(s) && CanStep(s, step)
    requires s.notes < MAX_NOTES && Apply(s, step).notes < MAX_NOTES
    ensures Inv(Apply(s, step))
  {
    StepKeepsOrder(s, step);
    hide StatusInv, WakeInv, LifecycleInv, HistoryInv, Apply, CanStep;
    if IsCallbackStep(step) {
      CallbackKeepsStatus(s, step);
      CallbackKeepsWake(s, step);
    } else if IsWorkerStep(step) || step.StartWorker? {
      WorkerKeepsStatus(s, step);
      WorkerKeepsWake(s, step);
    } else {
      ControllerKeepsStatus(s, step);
    }
  }

  lemma {:induction false} RunKeepsInv(s: State, steps: seq<Step>)
    requires Inv(s) && IsRun(s, steps) && Bounded(s, steps, MAX_NOTES)
    ensures Inv(After(s, steps)) && After(s, steps).notes < MAX_NOTES
    decreases |steps|
  {
    hide Inv, Apply, CanStep;
    if steps != [] {
      StepKeepsInv(s, steps[0]);
      RunKeepsInv(Apply(s, steps[0]), steps[1..]);
    }
  }

  // ----- No lost wake-up

  /**
   If the track and its reader are enabled, no enable or disable is under way and data is pending, then a
   callback is in flight, a task is queued, or the worker will take again.
   */
  predicate Awake(s: State) {
    s.enabled && s.readerEnabled && Settled(s) && s.queue != [] ==> !s.lock.Free? || WillTake(s)
  }

  /** In every interleaving with fewer than MAX_NOTES callbacks between two stores, the track is awake. */
  lemma NoLostWakeup(queue: seq<Message>, writers: map<ParticipantId, bool>, steps: seq<Step>)
    requires var s := Initial(queue, writers); IsRun(s, steps) && Bounded(s, steps, MAX_NOTES)
    ensures Awake(After(Initial(queue, writers), steps))
  {
    InitialInv(queue, writers);
    RunKeepsInv(Initial(queue, writers), steps);
  }

  // ----- Order and lifecycle

  /** What the pushers of a run hand to the reader, in order. */
  function PushedBy(steps: seq<Step>): seq<Message> {
    if steps == [] then []
    else (if steps[0].Push? then [steps[0].m] else []) + PushedBy(steps[1..])
  }

  lemma PushedByCallback(s: State, step: Step)
    requires CanStep(s, step) && IsCallbackStep(step)
    ensures CallbackStep(s, step).pushed == s.pushed + if step.Push? then [step.m] else []
  {
    hide AddWord;
  }

  lemma PushedByWorker(s: State, step: Step)
    requires CanStep(s, step) && IsPoolStep(step)
    ensures WorkerStep(s, step).pushed == s.pushed
  {
    hide AddWord, RecordOffer;
  }

  lemma PushedByController(s: State, step: Step)
    requires CanStep(s, step) && IsControllerStep(step)
    ensures ControllerStep(s, step).pushed == s.pushed
  {
  }

  lemma PushedByStep(s: State, step: Step)
    requires CanStep(s, step)
    ensures Apply(s, step).pushed == s.pushed + if step.Push? then [step.m] else []
  {
    hide CanStep, CallbackStep, WorkerStep, ControllerStep;
    if IsCallbackStep(step) {
      PushedByCallback(s, step);
    } else if IsPoolStep(step) {
      PushedByWorker(s, step);
    } else {
      PushedByController(s, step);
    }
  }

  lemma {:induction false} PushedGrows(s: State, steps: seq<Step>)
    requires IsRun(s, steps)
    ensures After(s, steps).pushed == s.pushed + PushedBy(steps)
    decreases |steps|
  {
    if steps != [] {
      hide Apply, CanStep;
      PushedByStep(s, steps[0]);
      PushedGrows(Apply(s, steps[0]), steps[1..]);
    }
  }

  /**
   In every interleaving: what has been taken is a prefix of what was pushed, in order, and nothing is
   lost; each item taken before the current one was written exactly once to each writer the track had
   when it was taken; and no write, finished delivery or not, ever met a disabled writer.
   */
  lemma DeliveredInOrderExactlyOnce(queue: seq<Message>, writers: map<ParticipantId, bool>, steps: seq<Step>)
    requires IsRun(Initial(queue, writers), steps)
    ensures var t := After(Initial(queue, writers), steps);
            && t.taken + t.queue == queue + PushedBy(steps)
            && |t.deliveries| == |t.taken|
            && (forall i :: 0 <= i < |t.taken| ==> t.deliveries[i].item == t.taken[i] && Sound(t.deliveries[i]))
            && (forall i :: 0 <= i < |t.taken| && (i < |t.taken| - 1 || !t.worker.Writing?) ==>
                  Complete(t.deliveries[i]))
  {
    InitialInv(queue, writers);
    RunKeepsOrder(Initial(queue, writers), steps);
    PushedGrows(Initial(queue, writers), steps);
  }

  // ----- One task at a time

  predicate SoloInv(s: State) {
    && Outstanding(s) <= 1
    && (s.status == NO_MORE_DATA ==> Outstanding(s) == 0)
    && (s.status == 2 * s.notes || s.status == 2 * s.notes + 1)
    && ((s.worker.Taking? || s.worker.Dequeuing? || s.worker.Writing? || s.worker.Subtracting?) ==>
          s.status == 2 * s.notes + 1)
  }

  lemma StepKeepsSolo(s: State, step: Step)
    requires SoloInv(s) && CanStep(s, step) && !step.StoreNoMoreData?
    requires s.notes < MAX_NOTES && Apply(s, step).notes < MAX_NOTES
    ensures SoloInv(Apply(s, step))
  {
    if IsCallbackStep(step) {
      CallbackKeepsSolo(s, step);
    } else if IsPoolStep(step) {
      WorkerKeepsSolo(s, step);
    }
  }

  lemma CallbackKeepsSolo(s: State, step: Step)
    requires SoloInv(s) && CanStep(s, step) && IsCallbackStep(step)
    requires Apply(s, step).notes < MAX_NOTES
    ensures SoloInv(Apply(s, step))
  {
    if step.CallbackAdd? {
      assert s.status + NEW_DATA_ARRIVED < WORD;
    }
  }

  lemma WorkerKeepsSolo(s: State, step: Step)
    requires SoloInv(s) && CanStep(s, step) && IsPoolStep(step) && s.notes < MAX_NOTES
    ensures SoloInv(Apply(s, step))
  {
    if step.WorkerSubtract? {
      Decrement(s.status);
    }
  }

  lemma {:induction false} RunKeepsSolo(s: State, steps: seq<Step>)
    requires SoloInv(s) && IsRun(s, steps) && Bounded(s, steps, MAX_NOTES)
    requires forall k :: 0 <= k < |steps| ==> !steps[k].StoreNoMoreData?
    ensures SoloInv(After(s, steps))
    decreases |steps|
  {
    if steps != [] {
      assert !steps[0].StoreNoMoreData?;
      StepKeepsSolo(s, steps[0]);
      RunKeepsSolo(Apply(s, steps[0]), steps[1..]);
    }
  }

  /**
   From any reachable state with status no_more_data and no task outstanding, and until the next enable
   resets the status: never two tasks outstanding, and status no_more_data means none.
   */
  lemma SingleTask(s: State, steps: seq<Step>)
    requires Inv(s) && s.status == NO_MORE_DATA && Outstanding(s) == 0
    requires IsRun(s, steps) && Bounded(s, steps, MAX_NOTES)
    requires forall k :: 0 <= k < |steps| ==> !steps[k].StoreNoMoreData?
    ensures Outstanding(After(s, steps)) <= 1
    ensures After(s, steps).status == NO_MORE_DATA ==> Outstanding(After(s, steps)) == 0
  {
    RunKeepsSolo(s, steps);
  }

  // ----- Termination and draining

  /** Steps of the thread pool alone. */
  predicate IsPoolStep(step: Step) {
    IsWorkerStep(step) || step.StartWorker?
  }

  /** Pushers and controllers are at rest on an enabled track. */
  predicate Quiet(s: State) {
    s.enabled && s.readerEnabled && Settled(s) && s.lock.Free?
  }

  /** Pool steps left before the pool has nothing to do. */
  function Rank(s: State): nat {
    7 * s.tasks + |s.queue| * (|s.writers| + 5) +
    match s.worker
    case NoWorker => 0
    case Leaving => 1
    case Subtracting => if s.status == TRANSMITTING_DATA then 2 else 7
    case Dequeuing => if s.queue == [] && s.status != TRANSMITTING_DATA then 8 else 3
    case Taking => if s.queue == [] && s.status != TRANSMITTING_DATA then 9 else 4
    case Storing => 5
    case Looping => 6
    case Writing(_, todo) => |todo| + 7
  }

  /** Takes the running worker still makes. */
  function TakesLeft(s: State): nat {
    match s.worker
    case NoWorker => 0
    case Leaving => 0
    case Subtracting => if s.status == TRANSMITTING_DATA then 0 else |s.queue| + 1
    case Dequeuing => if s.queue == [] && s.status != TRANSMITTING_DATA then 2 else |s.queue| + 1
    case Taking => if s.queue == [] && s.status != TRANSMITTING_DATA then 2 else |s.queue| + 1
    case Storing => |s.queue| + 1
    case Looping => |s.queue| + 1
    case Writing(_, _) => |s.queue| + 1
  }

  lemma PoolKeepsQuiet(s: State, step: Step)
    requires Quiet(s) && s.status < WORD && CanStep(s, step) && IsPoolStep(step)
    ensures Quiet(Apply(s, step)) && Apply(s, step).status < WORD
  {
  }

  lemma RankDrops(s: State, step: Step)
    requires Quiet(s) && s.status < WORD && CanStep(s, step) && IsPoolStep(step)
    ensures Quiet(Apply(s, step)) && Apply(s, step).status < WORD
    ensures Rank(s) == Rank(Apply(s, step)) + 1
    ensures !step.StartWorker? ==>
              TakesLeft(s) == TakesLeft(Apply(s, step)) + (if step.WorkerTake? then 1 else 0)
  {
    PoolKeepsQuiet(s, step);
    hide Quiet, Rank, TakesLeft, Apply;
    if step.WorkerTake? {
      TakeDropsRank(s);
    } else if step.WorkerSubtract? {
      SubtractDropsRank(s);
    } else if step.WorkerWrite? {
      WriteDropsRank(s, step.id);
    } else {
      OthersDropRank(s, step);
    }
  }

  lemma OthersDropRank(s: State, step: Step)
    requires Quiet(s) && CanStep(s, step) && IsPoolStep(step)
    requires !step.WorkerTake? && !step.WorkerSubtract? && !step.WorkerWrite?
    ensures Rank(s) == Rank(Apply(s, step)) + 1
    ensures !step.StartWorker? ==> TakesLeft(s) == TakesLeft(Apply(s, step))
  {
  }

  lemma SubtractDropsRank(s: State)
    requires Quiet(s) && s.status < WORD && CanStep(s, WorkerSubtract)
    ensures Rank(s) == Rank(Apply(s, WorkerSubtract)) + 1
    ensures TakesLeft(s) == TakesLeft(Apply(s, WorkerSubtract))
  {
    Decrement(s.status);
  }

  lemma WriteDropsRank(s: State, id: ParticipantId)
    requires CanStep(s, WorkerWrite(id))
    ensures Rank(s) == Rank(Apply(s, WorkerWrite(id))) + 1
    ensures TakesLeft(s) == TakesLeft(Apply(s, WorkerWrite(id)))
  {
    assert |s.worker.todo - {id}| == |s.worker.todo| - 1;
  }

  lemma TakeDropsRank(s: State)
    requires Quiet(s) && CanStep(s, WorkerTake)
    ensures Rank(s) == Rank(Apply(s, WorkerTake)) + 1
    ensures TakesLeft(s) == TakesLeft(Apply(s, WorkerTake)) + 1
  {
    if s.queue != [] {
      var n, w := |s.queue|, |s.writers| + 5;
      assert |s.writers.Keys| == |s.writers|;
      assert n * w == (n - 1) * w + w;
    }
  }

  function Takes(steps: seq<Step>): nat {
    if steps == [] then 0 else (if steps[0].WorkerTake? then 1 else 0) + Takes(steps[1..])
  }

  /** Once callbacks stop, the running worker makes at most |queue| + 2 takes, and finitely many steps. */
  lemma {:induction false} WorkerTerminates(s: State, steps: seq<Step>)
    requires Quiet(s) && s.status < WORD && IsRun(s, steps)
    requires forall k :: 0 <= k < |steps| ==> IsWorkerStep(steps[k])
    ensures Takes(steps) + TakesLeft(After(s, steps)) == TakesLeft(s) <= |s.queue| + 2
    ensures |steps| <= Rank(s)
    decreases |steps|
  {
    if steps != [] {
      assert IsWorkerStep(steps[0]);
      RankDrops(s, steps[0]);
      WorkerTerminates(Apply(s, steps[0]), steps[1..]);
    }
  }

  lemma {:induction false} PoolRunIsBounded(s: State, steps: seq<Step>)
    requires Quiet(s) && s.status < WORD && s.notes < MAX_NOTES && IsRun(s, steps)
    requires forall k :: 0 <= k < |steps| ==> IsPoolStep(steps[k])
    ensures Quiet(After(s, steps)) && After(s, steps).pushed == s.pushed
    ensures Rank(s) == Rank(After(s, steps)) + |steps|
    ensures Bounded(s, steps, MAX_NOTES)
    decreases |steps|
  {
    if steps != [] {
      assert IsPoolStep(steps[0]);
      RankDrops(s, steps[0]);
      PoolRunIsBounded(Apply(s, steps[0]), steps[1..]);
    }
  }

  /** While the pool has work, some pool step can be taken. */
  lemma PoolNeverBlocks(s: State) returns (step: Step)
    requires Quiet(s) && Inv(s) && (s.tasks > 0 || !s.worker.NoWorker?)
    ensures IsPoolStep(step) && CanStep(s, step)
  {
    match s.worker
    case NoWorker => step := StartWorker;
    case Looping => step := WorkerCheck;
    case Storing => step := WorkerStore;
    case Taking => step := WorkerEnterReader;
    case Dequeuing => step := WorkerTake;
    case Subtracting => step := WorkerSubtract;
    case Leaving => step := WorkerLeave;
    case Writing(_, todo) =>
      if todo == {} {
        step := WorkerWritten;
      } else {
        var id :| id in todo;
        step := WorkerWrite(id);
      }
  }

  /** Where the pool cannot go on it has nothing to do. */
  lemma StuckMeansIdle(s: State)
    requires Quiet(s) && Inv(s) && forall step :: IsPoolStep(step) ==> !CanStep(s, step)
    ensures s.tasks == 0 && s.worker.NoWorker?
  {
    hide Inv, Quiet, CanStep, IsPoolStep;
    if s.tasks > 0 || !s.worker.NoWorker? {
      var step := PoolNeverBlocks(s);
      assert false;
    }
  }

  lemma IdleMeansDelivered(s: State)
    requires Quiet(s) && Inv(s) && s.tasks == 0 && s.worker.NoWorker?
    ensures s.queue == [] && s.taken == s.pushed && |s.deliveries| == |s.pushed|
    ensures forall i :: 0 <= i < |s.deliveries| ==> s.deliveries[i].item == s.pushed[i] && Complete(s.deliveries[i])
  {
    hide StatusInv, LifecycleInv, Complete;
  }

  /**
   With pushers and controllers at rest, every run of the pool from a reachable state is shorter than
   Rank, and one that cannot be extended has taken everything that was pushed and delivered it.
   */
  lemma PoolDrainsTheQueue(s: State, steps: seq<Step>)
    requires Inv(s) && s.notes < MAX_NOTES && Quiet(s) && IsRun(s, steps)
    requires forall k :: 0 <= k < |steps| ==> IsPoolStep(steps[k])
    ensures |steps| <= Rank(s)
    ensures var t := After(s, steps);
            (forall step :: IsPoolStep(step) ==> !CanStep(t, step)) ==>
              && t.queue == [] && t.taken == s.pushed && |t.deliveries| == |s.pushed|
              && (forall i :: 0 <= i < |t.deliveries| ==>
                    t.deliveries[i].item == s.pushed[i] && Complete(t.deliveries[i]))
  {
    hide Inv, Quiet, CanStep, Apply, IsRun, After, Bounded, Complete, IsPoolStep;
    assert s.status < WORD by {
      InvBoundsStatus(s);
    }
    PoolRunIsBounded(s, steps);
    RunKeepsInv(s, steps);
    var t := After(s, steps);
    if forall step :: IsPoolStep(step) ==> !CanStep(t, step) {
      StuckMeansIdle(t);
      IdleMeansDelivered(t);
    }
  }

  lemma InvBoundsStatus(s: State)
    requires Inv(s)
    ensures s.status < WORD
  {
  }

  // ----- No deadlock

  /** Steps that begin a new push or a new controller call. */
  predicate IsNewRequest(step: Step) {
    step.Push? || step.StartEnable? || step.StartDisable? || step.StartAdd? || step.StartRemove?
  }

  /** In every run: whenever a thread is inside the protocol, some thread inside it can move. */
  lemma NoDeadlock(queue: seq<Message>, writers: map<ParticipantId, bool>, steps: seq<Step>) returns (step: Step)
    requires IsRun(Initial(queue, writers), steps)
    requires var s := After(Initial(queue, writers), steps);
             !s.lock.Free? || !s.worker.NoWorker? || s.tasks > 0 || !s.controller.Idle?
    ensures CanStep(After(Initial(queue, writers), steps), step) && !IsNewRequest(step)
  {
    InitialInv(queue, writers);
    RunKeepsOrder(Initial(queue, writers), steps);
    step := SomeThreadMoves(After(Initial(queue, writers), steps));
  }

  lemma SomeThreadMoves(s: State) returns (step: Step)
    requires LifecycleInv(s)
    requires !s.lock.Free? || !s.worker.NoWorker? || s.tasks > 0 || !s.controller.Idle?
    ensures CanStep(s, step) && !IsNewRequest(step)
  {
    if !s.lock.Free? {
      match s.lock.pc
      case CheckEnabled => step := CallbackCheck;
      case AddStatus => step := CallbackAdd;
      case EmitTask => step := CallbackEmit;
    } else if s.controller.NotifyPending? {
      step := NotifyIfPending;
    } else if s.worker.Writing? && s.worker.todo != {} {
      var id :| id in s.worker.todo;
      step := WorkerWrite(id);
    } else if !s.worker.NoWorker? {
      match s.worker
      case Looping => step := WorkerCheck;
      case Storing => step := WorkerStore;
      case Taking => step := WorkerEnterReader;
      case Dequeuing => step := WorkerTake;
      case Subtracting => step := WorkerSubtract;
      case Leaving => step := WorkerLeave;
      case Writing(_, _) => step := WorkerWritten;
    } else if s.tasks > 0 {
      step := StartWorker;
    } else {
      match s.controller
      case ResetStatus => step := StoreNoMoreData;
      case EnableReader => step := EnableTheReader;
      case AwaitTransmission => step := TransmissionOver;
      case DisableReader => step := DisableTheReader;
      case AddingWriter(_, _) => step := FinishAdd;
      case RemovingWriter(_) => step := FinishRemove;
      case EnableWriters(ids) =>
        if ids == {} { step := WritersEnabled; } else { var id :| id in ids; step := EnableOneWriter(id); }
      case DisableWriters(ids) =>
        if ids == {} { step := WritersDisabled; } else { var id :| id in ids; step := DisableOneWriter(id); }
    }
  }

  // ----- The bound on callbacks is the exact one

  /** A pusher's whole visit when the status is not no_more_data. */
  const VISIT: seq<Step> := [Push([]), CallbackCheck, CallbackAdd]

  function Visits(n: nat): seq<Step> {
    if n == 0 then [] else VISIT + Visits(n - 1)
  }

  lemma {:induction false} RunsConcatenate(s: State, a: seq<Step>, b: seq<Step>)
    requires IsRun(s, a) && IsRun(After(s, a), b)
    ensures IsRun(s, a + b) && After(s, a + b) == After(After(s, a), b)
    decreases |a|
  {
    if a == [] {
      assert a + b == b;
    } else {
      assert (a + b)[0] == a[0] && (a + b)[1..] == a[1..] + b;
      RunsConcatenate(Apply(s, a[0]), a[1..], b);
    }
  }

  /** One callback comes in while the worker is about to decrement. */
  lemma OneVisit(s: State, limit: nat)
    requires s.worker.Subtracting? && s.enabled && s.lock.Free? && s.status < WORD && s.status % 2 == 1
    requires s.notes + 1 < limit
    ensures IsRun(s, VISIT) && Bounded(s, VISIT, limit)
    ensures After(s, VISIT) == s.(status := (s.status + 2) % WORD, notes := s.notes + 1,
                                  queue := s.queue + [[]], pushed := s.pushed + [[]])
  {
    var s1 := Apply(s, Push([]));
    var s2 := Apply(s1, CallbackCheck);
    var s3 := Apply(s2, CallbackAdd);
    assert VISIT[0] == Push([]) && VISIT[1..][0] == CallbackCheck && VISIT[1..][1..][0] == CallbackAdd;
    assert VISIT[1..][1..][1..] == [];
    assert IsRun(s3, VISIT[1..][1..][1..]) && After(s3, VISIT[1..][1..][1..]) == s3
        && Bounded(s3, VISIT[1..][1..][1..], limit);
    assert IsRun(s2, VISIT[1..][1..]) && After(s2, VISIT[1..][1..]) == s3 && Bounded(s2, VISIT[1..][1..], limit);
    assert IsRun(s1, VISIT[1..]) && After(s1, VISIT[1..]) == s3 && Bounded(s1, VISIT[1..], limit);
  }

  lemma TwoMore(status: nat, n: nat)
    requires status < WORD && status % 2 == 1 && n > 0
    ensures (status + 2) % WORD < WORD && (status + 2) % WORD % 2 == 1
    ensures ((status + 2) % WORD + 2 * (n - 1)) % WORD == (status + 2 * n) % WORD
  {
    if status + 2 >= WORD {
      assert (status + 2) % WORD == status + 2 - WORD;
      assert status + 2 * n == (status + 2 - WORD + 2 * (n - 1)) + WORD;
    }
  }

  lemma NoSteps(s: State, limit: nat)
    requires s.notes < limit
    ensures IsRun(s, []) && After(s, []) == s && Bounded(s, [], limit)
  {
  }

  /** The worker is about to decrement; n callbacks come in before it does. */
  lemma {:induction false} CallbacksWhileSubtracting(s: State, n: nat)
    requires s.worker.Subtracting? && s.enabled && s.lock.Free? && s.status < WORD
    requires s.status % 2 == 1
    ensures IsRun(s, Visits(n))
    ensures var t := After(s, Visits(n));
            t == s.(status := (s.status + 2 * n) % WORD, notes := s.notes + n, queue := t.queue, pushed := t.pushed)
            && |t.queue| == |s.queue| + n
    ensures Bounded(s, Visits(n), s.notes + n + 1)
    decreases n
  {
    hide CanStep, Apply, IsRun, After, Bounded;
    if n == 0 {
      NoSteps(s, s.notes + 1);
    } else {
      OneVisit(s, s.notes + n + 1);
      TwoMore(s.status, n);
      var s3 := After(s, VISIT);
      CallbacksWhileSubtracting(s3, n - 1);
      RunsConcatenate(s, VISIT, Visits(n - 1));
      BoundsConcatenate(s, VISIT, Visits(n - 1), s.notes + n + 1);
    }
  }

  lemma {:induction false} BoundsConcatenate(s: State, a: seq<Step>, b: seq<Step>, limit: nat)
    requires IsRun(s, a) && IsRun(After(s, a), b) && IsRun(s, a + b)
    requires Bounded(s, a, limit) && Bounded(After(s, a), b, limit)
    ensures Bounded(s, a + b, limit)
    decreases |a|
  {
    if a == [] {
      assert a + b == b;
    } else {
      assert (a + b)[0] == a[0] && (a + b)[1..] == a[1..] + b;
      BoundsConcatenate(Apply(s, a[0]), a[1..], b, limit);
    }
  }

  lemma Extend(s: State, steps: seq<Step>, step: Step, limit: nat) returns (longer: seq<Step>)
    requires IsRun(s, steps) && CanStep(After(s, steps), step)
    requires Bounded(s, steps, limit) && Apply(After(s, steps), step).notes < limit
    requires After(s, steps).notes < limit
    ensures IsRun(s, longer) && After(s, longer) == Apply(After(s, steps), step) && Bounded(s, longer, limit)
  {
    hide Apply, CanStep, IsRun, After, Bounded;
    longer := steps + [step];
    OneStep(After(s, steps), step, limit);
    RunsConcatenate(s, steps, [step]);
    BoundsConcatenate(s, steps, [step], limit);
  }

  lemma OneStep(s: State, step: Step, limit: nat)
    requires CanStep(s, step)
    ensures IsRun(s, [step]) && After(s, [step]) == Apply(s, step)
    ensures s.notes < limit && Apply(s, step).notes < limit ==> Bounded(s, [step], limit)
  {
    hide Apply, CanStep;
    assert [step][0] == step && [step][1..] == [];
    assert IsRun(Apply(s, step), []) && After(Apply(s, step), []) == Apply(s, step);
  }

  lemma EnableShape(s: State)
    requires s == Initial([], map[])
    ensures var s1 := s.(enabled := true, controller := ResetStatus);
            var s2 := s1.(controller := EnableWriters({}));
            && CanStep(s, StartEnable) && Apply(s, StartEnable) == s1
            && CanStep(s1, StoreNoMoreData) && Apply(s1, StoreNoMoreData) == s2
  {
    assert s.writers.Keys == {};
  }

  lemma EnableReaderShape(s: State)
    requires s.controller == EnableWriters({}) && !s.readerEnabled && s.lock.Free? && s.worker.NoWorker?
    ensures var s1 := s.(controller := EnableReader);
            var s2 := s1.(readerEnabled := true, controller := NotifyPending);
            && CanStep(s, WritersEnabled) && Apply(s, WritersEnabled) == s1
            && CanStep(s1, EnableTheReader) && Apply(s1, EnableTheReader) == s2
            && CanStep(s2, NotifyIfPending)
            && Apply(s2, NotifyIfPending) ==
                 if s.queue == [] then s2.(controller := Idle)
                 else s2.(lock := HeldByEnable(CheckEnabled), controller := Notifying)
  {
  }

  /** A track without writers is enabled. */
  lemma ReachEnabled(s: State) returns (steps: seq<Step>)
    requires s == Initial([], map[])
    ensures IsRun(s, steps) && Bounded(s, steps, MAX_NOTES)
    ensures After(s, steps) == s.(enabled := true, readerEnabled := true)
  {
    EnableShape(s);
    EnableReaderShape(s.(enabled := true, controller := EnableWriters({})));
    NoSteps(s, MAX_NOTES);
    hide IsRun, After, Bounded, Apply, CanStep;
    steps := Extend(s, [], StartEnable, MAX_NOTES);
    steps := Extend(s, steps, StoreNoMoreData, MAX_NOTES);
    steps := Extend(s, steps, WritersEnabled, MAX_NOTES);
    steps := Extend(s, steps, EnableTheReader, MAX_NOTES);
    steps := Extend(s, steps, NotifyIfPending, MAX_NOTES);
  }

  /** One message is pushed and its task starts. */
  lemma ReachLooping(s: State) returns (steps: seq<Step>)
    requires s == Initial([], map[])
    ensures IsRun(s, steps) && Bounded(s, steps, MAX_NOTES)
    ensures var t := After(s, steps);
            t.worker.Looping? && Quiet(t) && t.tasks == 0 && t.controller.Idle? && t.notes == 1
            && t.queue == [[]] && t.writers == map[]
  {
    hide IsRun, After, Bounded;
    steps := ReachEnabled(s);
    steps := Extend(s, steps, Push([]), MAX_NOTES);
    steps := Extend(s, steps, CallbackCheck, MAX_NOTES);
    steps := Extend(s, steps, CallbackAdd, MAX_NOTES);
    steps := Extend(s, steps, CallbackEmit, MAX_NOTES);
    steps := Extend(s, steps, StartWorker, MAX_NOTES);
  }

  /** The message is taken, and the next take finds nothing. */
  lemma ReachSubtracting(s: State) returns (steps: seq<Step>)
    requires s == Initial([], map[])
    ensures IsRun(s, steps) && Bounded(s, steps, MAX_NOTES)
    ensures var t := After(s, steps);
            t.worker.Subtracting? && Quiet(t) && t.status == TRANSMITTING_DATA && t.tasks == 0 && t.notes == 0
  {
    hide IsRun, After, Bounded;
    steps := ReachLooping(s);
    steps := Extend(s, steps, WorkerCheck, MAX_NOTES);
    steps := Extend(s, steps, WorkerStore, MAX_NOTES);
    steps := Extend(s, steps, WorkerEnterReader, MAX_NOTES);
    steps := Extend(s, steps, WorkerTake, MAX_NOTES);
    steps := Extend(s, steps, WorkerWritten, MAX_NOTES);
    var t := After(s, steps);
    assert t.worker.Looping? && Quiet(t) && t.tasks == 0 && t.controller.Idle? && t.queue == [];
    steps := Extend(s, steps, WorkerCheck, MAX_NOTES);
    steps := Extend(s, steps, WorkerStore, MAX_NOTES);
    steps := Extend(s, steps, WorkerEnterReader, MAX_NOTES);
    steps := Extend(s, steps, WorkerTake, MAX_NOTES);
  }

  /**
   The bound on callbacks cannot be relaxed by one: a run from the start, with at most MAX_NOTES callbacks
   between two stores, leaves an enabled and settled track with pending data and nobody to send it.
   */
  lemma OneCallbackTooMany(s: State) returns (steps: seq<Step>)
    requires s == Initial([], map[])
    ensures IsRun(s, steps) && Bounded(s, steps, MAX_NOTES + 1) && !Awake(After(s, steps))
  {
    hide IsRun, After, Bounded, Visits;
    var warmUp := ReachSubtracting(s);
    BoundsRelax(s, warmUp, MAX_NOTES, MAX_NOTES + 1);
    var t := After(s, warmUp);
    CallbacksWhileSubtracting(t, MAX_NOTES);
    RunsConcatenate(s, warmUp, Visits(MAX_NOTES));
    BoundsConcatenate(s, warmUp, Visits(MAX_NOTES), MAX_NOTES + 1);
    steps := warmUp + Visits(MAX_NOTES);
    var u := After(s, steps);
    assert u.status == TRANSMITTING_DATA && u.worker.Subtracting?;
    LeavesWithData(u);
    hide Apply, CanStep;
    steps := Extend(s, steps, WorkerSubtract, MAX_NOTES + 1);
    steps := Extend(s, steps, WorkerLeave, MAX_NOTES + 1);
  }

  /** The decrement finds the status of a worker that heard of no callback. */
  lemma LeavesWithData(s: State)
    requires s.worker.Subtracting? && s.status == TRANSMITTING_DATA && s.tasks == 0
    requires Quiet(s) && s.queue != []
    ensures CanStep(s, WorkerSubtract) && CanStep(Apply(s, WorkerSubtract), WorkerLeave)
    ensures var t := Apply(Apply(s, WorkerSubtract), WorkerLeave); !Awake(t) && t.notes == s.notes
    ensures Apply(s, WorkerSubtract).notes == s.notes
  {
  }

  lemma {:induction false} BoundsRelax(s: State, steps: seq<Step>, limit: nat, higher: nat)
    requires IsRun(s, steps) && Bounded(s, steps, limit) && limit <= higher
    ensures Bounded(s, steps, higher)
    decreases |steps|
  {
    if steps != [] {
      BoundsRelax(Apply(s, steps[0]), steps[1..], limit, higher);
    }
  }

  /** A run with fewer than limit callbacks between two stores that strands data. */
  ghost predicate Strands(queue: seq<Message>, writers: map<ParticipantId, bool>, steps: seq<Step>, limit: nat) {
    var s := Initial(queue, writers);
    IsRun(s, steps) && Bounded(s, steps, limit) && !Awake(After(s, steps))
  }

  /** So the limits under which no wake-up is ever lost are exactly those up to MAX_NOTES. */
  lemma WakeUpIsKeptExactly(limit: nat)
    ensures (forall queue, writers, steps :: !Strands(queue, writers, steps, limit)) <==> limit <= MAX_NOTES
  {
    if limit <= MAX_NOTES {
      forall queue, writers, steps ensures !Strands(queue, writers, steps, limit) {
        var s := Initial(queue, writers);
        if IsRun(s, steps) && Bounded(s, steps, limit) {
          BoundsRelax(s, steps, limit, MAX_NOTES);
          NoLostWakeup(queue, writers, steps);
        }
      }
    } else {
      var s := Initial([], map[]);
      var steps := OneCallbackTooMany(s);
      BoundsRelax(s, steps, MAX_NOTES + 1, limit);
      assert Strands([], map[], steps, limit);
    }
  }
}
