/**
 The methods of Track and InternalReader as they are written, each run from start to end.

 Every access to shared state is recorded as the step of the protocol it is, so the object is always at the
 end of a run of the step system: the steps are those of the code, and what is proved of runs is true of it.
 */
module Tracks {
  import opened DdsPipeTypes
  import opened TrackProtocol
  import opened TrackTheorems

  datatype ReturnCode = Ok | NoData | NotEnabled

  class InternalReader {
    var enabled: bool
    var queue: seq<Message>

    constructor ()
      ensures !enabled && queue == []
    {
      enabled, queue := false, [];
    }

    /** `pending` asks the caller to run the data-available callback. */
    method Enable() returns (pending: bool)
      modifies this
      ensures enabled && queue == old(queue) && pending == (!old(enabled) && queue != [])
    {
      pending := false;
      if !enabled {
        enabled := true;
        pending := queue != [];
      }
    }

    method Disable()
      modifies this
      ensures !enabled && queue == old(queue)
    {
      enabled := false;
    }

    method Push(m: Message)
      modifies this`queue
      ensures queue == old(queue) + [m]
    {
      queue := queue + [m];
    }

    method Take() returns (ret: ReturnCode, data: Message)
      modifies this`queue
      ensures ret == if !enabled then NotEnabled else if old(queue) == [] then NoData else Ok
      ensures if ret.Ok? then [data] + queue == old(queue) else queue == old(queue)
    {
      data := [];
      if !enabled {
        return NotEnabled, data;
      }
      if queue == [] {
        return NoData, data;
      }
      ret, data := Ok, queue[0];
      queue := queue[1..];
    }
  }

  // ----- The steps the methods below take, one after the other

  lemma DisableShape(s: State)
    requires s.enabled && s.controller.Idle? && s.worker.NoWorker?
    ensures var s1 := s.(enabled := false, controller := AwaitTransmission);
            var s2 := s1.(controller := Controller.DisableReader);
            && CanStep(s, StartDisable) && Apply(s, StartDisable) == s1
            && CanStep(s1, TransmissionOver) && Apply(s1, TransmissionOver) == s2
            && CanStep(s2, DisableTheReader)
            && Apply(s2, DisableTheReader) == s1.(readerEnabled := false, controller := DisableWriters(s.writers.Keys))
  {
  }

  lemma TakeShape(s: State)
    requires s.worker.Storing? && s.lock.Free? && s.controller.Idle? && s.readerEnabled
    ensures var s1 := s.(status := TRANSMITTING_DATA, notes := 0, worker := Taking);
            var s2 := s1.(worker := Dequeuing);
            && CanStep(s, WorkerStore) && Apply(s, WorkerStore) == s1
            && CanStep(s1, WorkerEnterReader) && Apply(s1, WorkerEnterReader) == s2
            && CanStep(s2, WorkerTake)
            && var t := Apply(s2, WorkerTake);
               if s.queue == [] then t == s2.(worker := Subtracting)
               else t == s2.(queue := s.queue[1..], taken := s.taken + [s.queue[0]], deliveries := t.deliveries,
                             worker := Writing(s.queue[0], s.writers.Keys))
  {
  }

  lemma LoopShape(s: State)
    ensures s.tasks > 0 && s.worker.NoWorker? ==>
              CanStep(s, StartWorker) && Apply(s, StartWorker) == s.(tasks := s.tasks - 1, worker := Looping)
    ensures s.worker.Leaving? ==> CanStep(s, WorkerLeave) && Apply(s, WorkerLeave) == s.(worker := NoWorker)
  {
  }

  lemma OneWriterShape(s: State, id: ParticipantId)
    ensures s.controller.EnableWriters? && id in s.controller.toEnable ==>
              && CanStep(s, EnableOneWriter(id))
              && Apply(s, EnableOneWriter(id)) ==
                   s.(writers := s.writers[id := true], controller := EnableWriters(s.controller.toEnable - {id}))
    ensures s.controller.DisableWriters? && id in s.controller.toDisable ==>
              && CanStep(s, DisableOneWriter(id))
              && Apply(s, DisableOneWriter(id)) ==
                   s.(writers := s.writers[id := false], controller := DisableWriters(s.controller.toDisable - {id}))
    ensures s.worker.Writing? && id in s.worker.todo ==>
              && CanStep(s, WorkerWrite(id))
              && var t := Apply(s, WorkerWrite(id));
                 t == s.(worker := Writing(s.worker.item, s.worker.todo - {id}), deliveries := t.deliveries)
  {
  }

  class Track {
    const reader: InternalReader
    var enabled: bool
    var status: nat
    var tasks: nat                         // transmit tasks emitted to the pool and not yet started
    var writers: map<ParticipantId, bool>  // whether each writer is enabled
    ghost const start: State
    ghost var s: State
    ghost var history: seq<Step>

    /** The fields are those of the protocol state, which the recorded steps lead to. */
    ghost predicate Mirrors()
      reads this, reader
    {
      && s.enabled == enabled && s.status == status && s.tasks == tasks && s.writers == writers
      && s.readerEnabled == reader.enabled && s.queue == reader.queue
      && IsRun(start, history) && After(start, history) == s
    }

    /** Between calls: no callback, worker or controller is under way. */
    ghost predicate Valid()
      reads this, reader
    {
      && Mirrors() && s.lock.Free? && s.worker.NoWorker? && s.controller.Idle?
      && enabled == reader.enabled
    }

    constructor (reader: InternalReader, writers: map<ParticipantId, bool>)
      requires !reader.enabled
      ensures Valid() && !enabled && this.reader == reader && this.writers == writers
      ensures history == [] && start == Initial(reader.queue, writers)
    {
      this.reader, this.writers := reader, writers;
      enabled, status, tasks := false, NO_MORE_DATA, 0;
      start, s, history := Initial(reader.queue, writers), Initial(reader.queue, writers), [];
    }

    /** The next step of the run, done by the statement before it. */
    ghost method Record(step: Step)
      requires IsRun(start, history) && After(start, history) == s && CanStep(s, step)
      modifies this`s, this`history
      ensures IsRun(start, history) && After(start, history) == s && s == Apply(old(s), step)
      ensures history == old(history) + [step]
    {
      hide IsRun, After, Apply, CanStep;
      OneStep(s, step, 0);
      RunsConcatenate(start, history, [step]);
      s := Apply(s, step);
      history := history + [step];
    }

    /** The callback, with the reader's queue locked. */
    method DataAvailable()
      requires Mirrors() && !s.lock.Free? && s.lock.pc.CheckEnabled?
      modifies this`status, this`tasks, this`s, this`history
      ensures Mirrors()
      ensures s == EndCallback(old(s)).(status := status, tasks := tasks, notes := s.notes)
      ensures status == if enabled then AddWord(old(status), NEW_DATA_ARRIVED) else old(status)
      ensures tasks == if enabled && old(status) == NO_MORE_DATA then old(tasks) + 1 else old(tasks)
    {
      hide IsRun, After;
      Record(CallbackCheck);
      if enabled {
        var previousStatus := status;
        status := AddWord(status, NEW_DATA_ARRIVED);
        Record(CallbackAdd);
        if previousStatus == NO_MORE_DATA {
          tasks := tasks + 1;
          Record(CallbackEmit);
        }
      }
    }

    /** A message comes in: it is queued even if the reader is disabled, and then announced. */
    method SimulateDataReception(m: Message)
      requires Valid()
      modifies this`status, this`tasks, this`s, this`history, reader`queue
      ensures Valid() && reader.queue == old(reader.queue) + [m]
      ensures tasks == if enabled && old(status) == NO_MORE_DATA then old(tasks) + 1 else old(tasks)
    {
      hide IsRun, After;
      reader.Push(m);
      Record(Push(m));
      DataAvailable();
    }

    method Enable()
      requires Valid()
      modifies this`enabled, this`status, this`tasks, this`writers, this`s, this`history, reader
      ensures Valid() && enabled && reader.queue == old(reader.queue)
      ensures !old(enabled) ==> writers == map id | id in old(writers) :: true
      ensures !old(enabled) ==> tasks == old(tasks) + if reader.queue != [] then 1 else 0
    {
      hide IsRun, After, CanStep, Apply;
      if !enabled {
        ResetStatus();
        EnableAllWriters();
        EnableReader();
      }
    }

    /** The enabled flag goes up before the status is reset. */
    method ResetStatus()
      requires Valid() && !enabled
      modifies this`enabled, this`status, this`s, this`history
      ensures Mirrors() && enabled && status == NO_MORE_DATA
      ensures s == old(s).(enabled := true, status := NO_MORE_DATA, notes := 0,
                             controller := EnableWriters(writers.Keys))
    {
      hide IsRun, After;
      enabled := true;
      Record(StartEnable);
      status := NO_MORE_DATA;
      Record(StoreNoMoreData);
    }

    /** The reader is last, and calls back if data is waiting in it. */
    method EnableReader()
      requires Mirrors() && s.controller == EnableWriters({}) && !reader.enabled && s.lock.Free? && s.worker.NoWorker?
      requires enabled && status == NO_MORE_DATA
      modifies this`status, this`tasks, this`s, this`history, reader
      ensures Valid() && reader.queue == old(reader.queue)
      ensures tasks == old(tasks) + if reader.queue != [] then 1 else 0
    {
      EnableReaderShape(s);
      hide IsRun, After, Apply, CanStep;
      Record(WritersEnabled);
      var pending := reader.Enable();
      Record(EnableTheReader);
      Record(NotifyIfPending);
      if pending {
        DataAvailable();
      }
    }

    method EnableAllWriters()
      requires Mirrors() && s.controller == EnableWriters(writers.Keys)
      modifies this`writers, this`s, this`history
      ensures Mirrors() && writers == map id | id in old(writers) :: true
      ensures s == old(s).(writers := writers, controller := EnableWriters({}))
    {
      hide IsRun, After, Apply, CanStep;
      var todo := writers.Keys;
      while todo != {}
        invariant Mirrors() && s == old(s).(writers := writers, controller := EnableWriters(todo))
        invariant writers.Keys == old(writers).Keys && todo <= writers.Keys
        invariant forall id :: id in writers && id !in todo ==> writers[id]
        decreases todo
      {
        var id :| id in todo;
        writers := writers[id := true];
        OneWriterShape(s, id);
        Record(EnableOneWriter(id));
        todo := todo - {id};
      }
    }

    method Disable()
      requires Valid()
      modifies this`enabled, this`writers, this`s, this`history, reader
      ensures Valid() && !enabled && reader.queue == old(reader.queue)
      ensures old(enabled) ==> writers == map id | id in old(writers) :: false
    {
      hide IsRun, After, CanStep, Apply;
      if enabled {
        DisableReader();
        DisableAllWriters();
        FinishDisable();
      }
    }

    method DisableReader()
      requires Valid() && enabled
      modifies this`enabled, this`s, this`history, reader
      ensures Mirrors() && !enabled && !reader.enabled && reader.queue == old(reader.queue)
      ensures s == old(s).(enabled := false, readerEnabled := false, controller := DisableWriters(writers.Keys))
    {
      DisableShape(s);
      hide IsRun, After, Apply, CanStep;
      enabled := false;
      Record(StartDisable);
      Record(TransmissionOver);
      reader.Disable();
      Record(DisableTheReader);
    }

    method DisableAllWriters()
      requires Mirrors() && s.controller == DisableWriters(writers.Keys)
      modifies this`writers, this`s, this`history
      ensures Mirrors() && writers == map id | id in old(writers) :: false
      ensures s == old(s).(writers := writers, controller := DisableWriters({}))
    {
      hide IsRun, After, Apply, CanStep;
      var todo := writers.Keys;
      while todo != {}
        invariant Mirrors() && s == old(s).(writers := writers, controller := DisableWriters(todo))
        invariant writers.Keys == old(writers).Keys && todo <= writers.Keys
        invariant forall id :: id in writers && id !in todo ==> !writers[id]
        decreases todo
      {
        var id :| id in todo;
        writers := writers[id := false];
        OneWriterShape(s, id);
        Record(DisableOneWriter(id));
        todo := todo - {id};
      }
    }

    method FinishDisable()
      requires Mirrors() && s.controller == DisableWriters({})
      modifies this`s, this`history
      ensures Mirrors() && s == old(s).(controller := Idle)
    {
      hide IsRun, After;
      Record(WritersDisabled);
    }

    method AddWriter(id: ParticipantId, writerEnabled: bool)
      requires Valid()
      modifies this`writers, this`s, this`history
      ensures Valid() && writers == old(writers)[id := enabled || writerEnabled]
    {
      hide IsRun, After;
      Record(StartAdd(id, writerEnabled));
      writers := writers[id := enabled || writerEnabled];
      Record(FinishAdd);
    }

    method RemoveWriter(id: ParticipantId)
      requires Valid()
      modifies this`writers, this`s, this`history
      ensures Valid() && writers == old(writers) - {id}
    {
      hide IsRun, After;
      Record(StartRemove(id));
      writers := writers - {id};
      Record(FinishRemove);
    }

    /**
     A pool worker runs the task while nobody else acts.  In an enabled track it takes everything there is,
     in order, and leaves the status at no_more_data; in a disabled one it takes nothing.
     */
    method Transmit()
      requires Valid() && tasks > 0
      modifies this`status, this`tasks, this`s, this`history, reader`queue
      ensures Valid() && tasks == old(tasks) - 1 && enabled == old(enabled) && writers == old(writers)
      ensures if enabled then
                reader.queue == [] && s.taken == old(s.taken) + old(reader.queue) && status == NO_MORE_DATA
              else reader.queue == old(reader.queue) && s.taken == old(s.taken) && status == old(status)
    {
      LoopShape(s);
      hide IsRun, After, Apply, CanStep;
      tasks := tasks - 1;
      Record(StartWorker);
      var more := true;
      while more
        invariant Mirrors() && s.lock.Free? && s.controller.Idle? && s.worker == if more then Looping else Leaving
        invariant enabled == old(enabled) == reader.enabled && writers == old(writers) && tasks == old(tasks) - 1
        invariant s.taken + reader.queue == old(s.taken) + old(reader.queue)
        invariant if enabled then !more ==> reader.queue == [] && status == NO_MORE_DATA
                  else reader.queue == old(reader.queue) && s.taken == old(s.taken) && status == old(status)
        decreases more, |reader.queue|
      {
        more := TransmitOne();
      }
      LoopShape(s);
      Record(WorkerLeave);
    }

    /** One round of the loop; false where the source leaves it. */
    method TransmitOne() returns (more: bool)
      requires Mirrors() && s.worker.Looping? && s.lock.Free? && s.controller.Idle? && enabled == reader.enabled
      modifies this`status, this`s, this`history, reader`queue
      ensures Mirrors() && s.lock.Free? && s.controller.Idle? && s.worker == if more then Looping else Leaving
      ensures s.taken + reader.queue == old(s.taken) + old(reader.queue)
      ensures more ==> enabled && |reader.queue| < |old(reader.queue)|
      ensures !more ==> s.taken == old(s.taken)
      ensures !more ==> if enabled then reader.queue == [] && status == NO_MORE_DATA
                        else reader.queue == old(reader.queue) && status == old(status)
    {
      hide IsRun, After;
      Record(WorkerCheck);
      if !enabled {
        return false;
      }
      var ret, data := StoreAndTake();
      if ret == NoData {
        more := Subtract();
      } else {
        WriteToAll(data);
        more := true;
      }
    }

    method StoreAndTake() returns (ret: ReturnCode, data: Message)
      requires Mirrors() && s.worker.Storing? && s.lock.Free? && s.controller.Idle? && reader.enabled
      modifies this`status, this`s, this`history, reader`queue
      ensures Mirrors() && status == TRANSMITTING_DATA && s.lock.Free? && s.controller.Idle?
      ensures ret == if old(reader.queue) == [] then NoData else Ok
      ensures ret == NoData ==> reader.queue == [] && s.worker.Subtracting? && s.taken == old(s.taken)
      ensures ret == Ok ==> [data] + reader.queue == old(reader.queue) && s.taken == old(s.taken) + [data]
      ensures ret == Ok ==> s.worker == Writing(data, writers.Keys)
    {
      TakeShape(s);
      hide IsRun, After, Apply, CanStep;
      status := TRANSMITTING_DATA;
      Record(WorkerStore);
      Record(WorkerEnterReader);
      ret, data := reader.Take();
      Record(WorkerTake);
    }

    /** False if no callback came in since the store. */
    method Subtract() returns (more: bool)
      requires Mirrors() && s.worker.Subtracting? && status < WORD
      modifies this`status, this`s, this`history
      ensures Mirrors() && more == (old(status) != TRANSMITTING_DATA)
      ensures status == AddWord(old(status), WORD - TRANSMITTING_DATA)
      ensures s == old(s).(status := status, worker := if more then Looping else Leaving)
    {
      hide IsRun, After;
      var previousStatus := status;
      status := AddWord(status, WORD - TRANSMITTING_DATA);
      Record(WorkerSubtract);
      more := previousStatus != TRANSMITTING_DATA;
    }

    /** The loop over the writers, none of which the taken data skips. */
    method WriteToAll(data: Message)
      requires Mirrors() && s.worker == Writing(data, writers.Keys)
      modifies this`s, this`history
      ensures Mirrors() && s == old(s).(worker := Looping, deliveries := s.deliveries)
    {
      hide IsRun, After;
      var todo := writers.Keys;
      while todo != {}
        invariant Mirrors() && todo <= writers.Keys
        invariant s == old(s).(worker := Writing(data, todo), deliveries := s.deliveries)
        decreases todo
      {
        var id :| id in todo;
        OneWriterShape(s, id);
        Record(WorkerWrite(id));
        todo := todo - {id};
      }
      Record(WorkerWritten);
    }
  }
}
