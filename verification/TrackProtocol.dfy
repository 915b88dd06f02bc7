/**
 The hand-off protocol of a Track and its InternalReader, as a step system.

 A Track forwards what its reader receives to a set of writers.  Three kinds of threads meet in it
 without a common lock: pushers (who run the reader's callback), pool workers (who run the transmit
 loop) and a controller (enable, disable, add_writer, remove_writer).  One step below is one atomic
 access or one critical section of the source; every interleaving of steps is a run.
 */
module TrackProtocol {

  import opened DdsPipeTypes
  type Message = seq<bv8>

  /** Most callbacks that may fall between two stores to the status before the counter laps. */
  const MAX_NOTES: nat := 0x8000_0000

  const NO_MORE_DATA := 0
  const TRANSMITTING_DATA := 1
  const NEW_DATA_ARRIVED := 2

  /** Where the thread running `data_available_` stands. */
  datatype CallbackPc = CheckEnabled | AddStatus | EmitTask

  /** The lock of the reader's queue.  The callback runs while it is held. */
  datatype QueueLock = Free | HeldByPusher(pc: CallbackPc) | HeldByEnable(pc: CallbackPc)

  /**
   The worker that holds the transmission mutex.  A worker that has left the pool queue but waits for
   the mutex is still counted as a queued task: nobody can tell the two apart.
   */
  datatype Worker =
    | NoWorker
    | Looping                                            // about to ask whether it should transmit
    | Storing                                            // about to store transmitting_data
    | Taking                                             // about to take: waits for the reader's mutex
    | Dequeuing                                          // has it, and waits for the queue lock
    | Writing(item: Message, todo: set<ParticipantId>)   // writers still to be offered the item
    | Subtracting                                        // saw no data, about to decrement the status
    | Leaving                                            // out of the loop, mutex not yet released

  /** The thread holding the track mutex; there is at most one. */
  datatype Controller =
    | Idle
    | ResetStatus
    | EnableWriters(toEnable: set<ParticipantId>)
    | EnableReader
    | NotifyPending            // holds the reader mutex, waits for the queue lock
    | Notifying                // runs the callback inside the reader's enable
    | AwaitTransmission
    | DisableReader
    | DisableWriters(toDisable: set<ParticipantId>)
    | AddingWriter(id: ParticipantId, writerEnabled: bool)
    | RemovingWriter(id: ParticipantId)

  /** One write call: to whom, and whether that writer was enabled when it was called. */
  datatype Offer = Offer(target: ParticipantId, enabled: bool)

  /** What happened to one taken item: the writers in the track when it was taken, and the writes made. */
  datatype Delivery = Delivery(item: Message, targets: set<ParticipantId>, offers: seq<Offer>)

  /**
   `pushed`, `taken`, `deliveries` and `notes` are history: no step reads them.
   `notes` counts the callbacks that added to the status since the last store to it.
   */
  datatype State = State(
    enabled: bool,
    status: nat,
    tasks: nat,
    worker: Worker,
    controller: Controller,
    lock: QueueLock,
    readerEnabled: bool,
    queue: seq<Message>,
    writers: map<ParticipantId, bool>,
    pushed: seq<Message>,
    taken: seq<Message>,
    deliveries: seq<Delivery>,
    notes: nat
  )

  datatype Step =
    | Push(m: Message)
    | CallbackCheck
    | CallbackAdd
    | CallbackEmit
    | StartEnable
    | StoreNoMoreData
    | EnableOneWriter(id: ParticipantId)
    | WritersEnabled
    | EnableTheReader
    | NotifyIfPending
    | StartDisable
    | TransmissionOver
    | DisableTheReader
    | DisableOneWriter(id: ParticipantId)
    | WritersDisabled
    | StartAdd(id: ParticipantId, writerEnabled: bool)
    | FinishAdd
    | StartRemove(id: ParticipantId)
    | FinishRemove
    | StartWorker
    | WorkerCheck
    | WorkerStore
    | WorkerEnterReader
    | WorkerTake
    | WorkerSubtract
    | WorkerWrite(id: ParticipantId)
    | WorkerWritten
    | WorkerLeave

  /** A fresh Track over a disabled reader, which may already hold data. */
  function Initial(queue: seq<Message>, writers: map<ParticipantId, bool>): State {
    State(false, NO_MORE_DATA, 0, NoWorker, Idle, Free, false, queue, writers, queue, [], [], 0)
  }

  /** The atomic `fetch_add` and `fetch_sub` wrap around. */
  function AddWord(status: nat, k: int): nat {
    (status + k) % WORD
  }

  function AtPc(lock: QueueLock, pc: CallbackPc): QueueLock
    requires !lock.Free?
  {
    if lock.HeldByPusher? then HeldByPusher(pc) else HeldByEnable(pc)
  }

  /** The callback ends: the queue lock is released, and if `enable` ran it, `enable` ends too. */
  function EndCallback(s: State): State
    requires !s.lock.Free?
  {
    s.(lock := Free, controller := if s.lock.HeldByEnable? then Idle else s.controller)
  }

  /** The reader's own mutex is held across the callback that `enable` makes, and across a take. */
  predicate ReaderMutexFree(s: State) {
    !s.controller.NotifyPending? && !s.controller.Notifying? && !s.worker.Dequeuing?
  }

  predicate CanStep(s: State, step: Step) {
    match step
    case Push(_) => s.lock.Free?
    case CallbackCheck => !s.lock.Free? && s.lock.pc.CheckEnabled?
    case CallbackAdd => !s.lock.Free? && s.lock.pc.AddStatus?
    case CallbackEmit => !s.lock.Free? && s.lock.pc.EmitTask?
    case StartEnable => s.controller.Idle?
    case StoreNoMoreData => s.controller.ResetStatus?
    case EnableOneWriter(id) => s.controller.EnableWriters? && id in s.controller.toEnable
    case WritersEnabled => s.controller.EnableWriters? && s.controller.toEnable == {}
    case EnableTheReader => s.controller.EnableReader? && ReaderMutexFree(s)
    case NotifyIfPending => s.controller.NotifyPending? && s.lock.Free?
    case StartDisable => s.controller.Idle?
    case TransmissionOver => s.controller.AwaitTransmission? && s.worker.NoWorker?
    case DisableTheReader => s.controller.DisableReader? && ReaderMutexFree(s)
    case DisableOneWriter(id) => s.controller.DisableWriters? && id in s.controller.toDisable
    case WritersDisabled => s.controller.DisableWriters? && s.controller.toDisable == {}
    case StartAdd(_, _) => s.controller.Idle?
    case FinishAdd => s.controller.AddingWriter? && s.worker.NoWorker?
    case StartRemove(_) => s.controller.Idle?
    case FinishRemove => s.controller.RemovingWriter? && s.worker.NoWorker?
    case StartWorker => s.tasks > 0 && s.worker.NoWorker?
    case WorkerCheck => s.worker.Looping?
    case WorkerStore => s.worker.Storing?
    case WorkerEnterReader => s.worker.Taking? && ReaderMutexFree(s)
    case WorkerTake => s.worker.Dequeuing? && s.lock.Free?
    case WorkerSubtract => s.worker.Subtracting?
    case WorkerWrite(id) => s.worker.Writing? && id in s.worker.todo
    case WorkerWritten => s.worker.Writing? && s.worker.todo == {}
    case WorkerLeave => s.worker.Leaving?
  }

  /** A step of the pusher or of the callback. */
  function CallbackStep(s: State, step: Step): State
    requires CanStep(s, step)
    requires step.Push? || step.CallbackCheck? || step.CallbackAdd? || step.CallbackEmit?
  {
    match step
    case Push(m) =>
      s.(queue := s.queue + [m], pushed := s.pushed + [m], lock := HeldByPusher(CheckEnabled))
    case CallbackCheck =>
      if s.enabled then s.(lock := AtPc(s.lock, AddStatus)) else EndCallback(s)
    case CallbackAdd =>
      var added := s.(status := AddWord(s.status, NEW_DATA_ARRIVED), notes := s.notes + 1);
      if s.status == NO_MORE_DATA then added.(lock := AtPc(s.lock, EmitTask)) else EndCallback(added)
    case CallbackEmit =>
      EndCallback(s.(tasks := s.tasks + 1))
  }

  /** A step of the pool worker. */
  function WorkerStep(s: State, step: Step): State
    requires CanStep(s, step)
    requires IsWorkerStep(step) || step.StartWorker?
  {
    match step
    case StartWorker =>
      s.(tasks := s.tasks - 1, worker := Looping)
    case WorkerCheck =>
      s.(worker := if s.enabled then Storing else Leaving)
    case WorkerStore =>
      s.(status := TRANSMITTING_DATA, notes := 0, worker := Taking)
    case WorkerEnterReader =>
      s.(worker := if s.readerEnabled then Dequeuing else Looping)  // RETCODE_NOT_ENABLED: skip and continue
    case WorkerTake =>
      if s.queue == [] then
        s.(worker := Subtracting)
      else
        s.(queue := s.queue[1..],
        taken := s.taken + [s.queue[0]],
        deliveries := s.deliveries + [Delivery(s.queue[0], s.writers.Keys, [])],
        worker := Writing(s.queue[0], s.writers.Keys))
    case WorkerSubtract =>
      s.(status := AddWord(s.status, WORD - TRANSMITTING_DATA),
      worker := if s.status == TRANSMITTING_DATA then Leaving else Looping)
    case WorkerWrite(id) =>
      s.(worker := Writing(s.worker.item, s.worker.todo - {id}),
      deliveries := RecordOffer(s.deliveries, Offer(id, id in s.writers && s.writers[id])))
    case WorkerWritten =>
      s.(worker := Looping)
    case WorkerLeave =>
      s.(worker := NoWorker)
  }

  function RecordOffer(deliveries: seq<Delivery>, offer: Offer): seq<Delivery> {
    if deliveries == [] then []
    else
      var n := |deliveries| - 1;
      deliveries[n := deliveries[n].(offers := deliveries[n].offers + [offer])]
  }

  predicate IsWorkerStep(step: Step) {
    step.WorkerCheck? || step.WorkerStore? || step.WorkerEnterReader? || step.WorkerTake? ||
    step.WorkerSubtract? || step.WorkerWrite? || step.WorkerWritten? || step.WorkerLeave?
  }

  predicate IsCallbackStep(step: Step) {
    step.Push? || step.CallbackCheck? || step.CallbackAdd? || step.CallbackEmit?
  }

  /** A step of the thread that holds the track mutex. */
  function ControllerStep(s: State, step: Step): State
    requires CanStep(s, step)
    requires !IsWorkerStep(step) && !step.StartWorker? && !IsCallbackStep(step)
  {
    match step
    case StartEnable =>
      if s.enabled then s else s.(enabled := true, controller := ResetStatus)
    case StoreNoMoreData =>
      s.(status := NO_MORE_DATA, notes := 0, controller := EnableWriters(s.writers.Keys))
    case EnableOneWriter(id) =>
      s.(writers := s.writers[id := true], controller := EnableWriters(s.controller.toEnable - {id}))
    case WritersEnabled =>
      s.(controller := EnableReader)
    case EnableTheReader =>
      if s.readerEnabled then s.(controller := Idle)
      else s.(readerEnabled := true, controller := NotifyPending)
    case NotifyIfPending =>
      if s.queue == [] then s.(controller := Idle)
      else s.(lock := HeldByEnable(CheckEnabled), controller := Notifying)
    case StartDisable =>
      if s.enabled then s.(enabled := false, controller := AwaitTransmission) else s
    case TransmissionOver =>
      s.(controller := DisableReader)
    case DisableTheReader =>
      s.(readerEnabled := false, controller := DisableWriters(s.writers.Keys))
    case DisableOneWriter(id) =>
      s.(writers := s.writers[id := false], controller := DisableWriters(s.controller.toDisable - {id}))
    case WritersDisabled =>
      s.(controller := Idle)
    case StartAdd(id, e) =>
      s.(controller := AddingWriter(id, e))
    case FinishAdd =>
      s.(writers := s.writers[s.controller.id := s.enabled || s.controller.writerEnabled], controller := Idle)
    case StartRemove(id) =>
      s.(controller := RemovingWriter(id))
    case FinishRemove =>
      s.(writers := s.writers - {s.controller.id}, controller := Idle)
  }

  function Apply(s: State, step: Step): State
    requires CanStep(s, step)
  {
    if IsCallbackStep(step) then CallbackStep(s, step)
    else if IsWorkerStep(step) || step.StartWorker? then WorkerStep(s, step)
    else ControllerStep(s, step)
  }

  /** The steps can be taken one after the other from s. */
  predicate IsRun(s: State, steps: seq<Step>)
    decreases |steps|
  {
    steps == [] || (CanStep(s, steps[0]) && IsRun(Apply(s, steps[0]), steps[1..]))
  }

  function After(s: State, steps: seq<Step>): State
    requires IsRun(s, steps)
    decreases |steps|
  {
    if steps == [] then s else After(Apply(s, steps[0]), steps[1..])
  }

  /** Every state of the run has fewer than limit callbacks since the last store to the status. */
  predicate Bounded(s: State, steps: seq<Step>, limit: nat)
    requires IsRun(s, steps)
    decreases |steps|
  {
    s.notes < limit && (steps == [] || Bounded(Apply(s, steps[0]), steps[1..], limit))
  }

  /** Transmit tasks queued, about to be queued, or running and not yet past their last decrement. */
  function Outstanding(s: State): nat {
    s.tasks
    + (if !s.lock.Free? && s.lock.pc.EmitTask? then 1 else 0)
    + (if s.worker.NoWorker? || s.worker.Leaving? then 0 else 1)
  }

  /** A queued task, or a running worker that will call take again. */
  predicate WillTake(s: State) {
    s.tasks > 0
    || s.worker.Looping? || s.worker.Storing? || s.worker.Taking? || s.worker.Dequeuing? || s.worker.Writing?
    || (s.worker.Subtracting? && s.status != TRANSMITTING_DATA)
  }

  /** Neither enable nor disable is in progress. */
  predicate Settled(s: State) {
    s.controller.Idle? || s.controller.AddingWriter? || s.controller.RemovingWriter?
  }
}
