/** What every step of the Track protocol keeps. */
module TrackInvariant {
  import opened DdsPipeTypes
  import opened TrackProtocol

  /** The status is pinned to the number of callbacks since the last store, up to the decrements. */
  predicate StatusInv(s: State) {
    && s.status < WORD
    && (s.status == 2 * s.notes || s.status == 2 * s.notes + 1
        || s.status == (if s.notes == 0 then WORD - 1 else 2 * s.notes - 1))
    && ((s.worker.Taking? || s.worker.Dequeuing? || s.worker.Writing? || s.worker.Subtracting?) ==>
          s.status == 2 * s.notes || s.status == 2 * s.notes + 1)
  }

  /** The controller is past the point where enable looks at the queue itself. */
  predicate Armed(s: State) {
    !s.controller.ResetStatus? && !s.controller.EnableWriters?
    && !s.controller.EnableReader? && !s.controller.NotifyPending?
  }

  /** A raised status stands for an outstanding task; pending data stands for somebody on the way to it. */
  predicate WakeInv(s: State) {
    && (s.enabled && !s.controller.ResetStatus? && s.status != NO_MORE_DATA ==> Outstanding(s) > 0)
    && (s.enabled && Armed(s) && s.queue != [] ==> !s.lock.Free? || WillTake(s))
  }

  predicate AllEnabled(s: State, except: set<ParticipantId>) {
    forall id :: id in s.writers && id !in except ==> s.writers[id]
  }

  /** How the controller, the enabled flags and the worker fit together. */
  predicate LifecycleInv(s: State) {
    && (s.lock.HeldByEnable? <==> s.controller.Notifying?)
    && (s.readerEnabled ==> AllEnabled(s, {}))
    && (s.worker.Writing? ==> s.readerEnabled && s.worker.todo <= s.writers.Keys)
    && (s.worker.Dequeuing? || s.worker.Subtracting? ==> s.readerEnabled)
    && (s.worker.Dequeuing? ==> !s.controller.NotifyPending? && !s.controller.Notifying?)
    && (match s.controller
        case Idle => s.enabled == s.readerEnabled
        case AddingWriter(_, _) => s.enabled == s.readerEnabled
        case RemovingWriter(_) => s.enabled == s.readerEnabled
        case ResetStatus => s.enabled && !s.readerEnabled
        case EnableWriters(ids) => s.enabled && !s.readerEnabled && AllEnabled(s, ids) && ids <= s.writers.Keys
        case EnableReader => s.enabled && !s.readerEnabled && AllEnabled(s, {})
        case NotifyPending => s.enabled && s.readerEnabled
        case Notifying => s.enabled && s.readerEnabled
        case AwaitTransmission => !s.enabled && s.readerEnabled
        case DisableReader => !s.enabled && s.readerEnabled && Sleeping(s)
        case DisableWriters(ids) => !s.enabled && !s.readerEnabled && Sleeping(s) && ids <= s.writers.Keys)
  }

  predicate Sleeping(s: State) {
    s.worker.NoWorker? || s.worker.Looping? || s.worker.Leaving?
  }

  /** The writes made for d: each to an enabled writer of the track, no writer twice. */
  predicate Sound(d: Delivery) {
    && (forall k :: 0 <= k < |d.offers| ==> d.offers[k].enabled && d.offers[k].target in d.targets)
    && (forall j, k :: 0 <= j < k < |d.offers| ==> d.offers[j].target != d.offers[k].target)
  }

  function Offered(d: Delivery): set<ParticipantId> {
    set k | 0 <= k < |d.offers| :: d.offers[k].target
  }

  /** Every writer that was in the track got exactly one write, and it was enabled. */
  predicate Complete(d: Delivery) {
    Sound(d) && Offered(d) == d.targets
  }

  predicate HistoryInv(s: State) {
    && s.pushed == s.taken + s.queue
    && |s.deliveries| == |s.taken|
    && (forall i :: 0 <= i < |s.taken| ==> s.deliveries[i].item == s.taken[i])
    && (forall i :: 0 <= i < |s.deliveries| - 1 ==> Complete(s.deliveries[i]))
    && (!s.worker.Writing? && s.deliveries != [] ==> Complete(s.deliveries[|s.deliveries| - 1]))
    && (s.worker.Writing? ==>
          && s.deliveries != []
          && var d := s.deliveries[|s.deliveries| - 1];
          && d.item == s.worker.item && d.targets == s.writers.Keys && Sound(d)
          && Offered(d) == d.targets - s.worker.todo && s.worker.todo <= d.targets)
  }

  /** What holds however many callbacks come in. */
  predicate OrderInv(s: State) {
    LifecycleInv(s) && HistoryInv(s)
  }

  predicate Inv(s: State) {
    StatusInv(s) && WakeInv(s) && OrderInv(s)
  }

  lemma InitialInv(queue: seq<Message>, writers: map<ParticipantId, bool>)
    ensures Inv(Initial(queue, writers))
  {
  }

  lemma Increment(status: nat)
    requires status < WORD
    ensures AddWord(status, NEW_DATA_ARRIVED) == if status + 2 < WORD then status + 2 else status + 2 - WORD
  {
  }

  lemma CallbackKeepsStatus(s: State, step: Step)
    requires StatusInv(s) && CanStep(s, step) && IsCallbackStep(step)
    requires Apply(s, step).notes < MAX_NOTES
    ensures StatusInv(Apply(s, step))
  {
    hide AddWord;
    if step.CallbackAdd? {
      Increment(s.status);
    }
  }

  lemma CallbackKeepsWake(s: State, step: Step)
    requires StatusInv(s) && WakeInv(s) && LifecycleInv(s) && CanStep(s, step) && IsCallbackStep(step)
    requires Apply(s, step).notes < MAX_NOTES
    ensures WakeInv(Apply(s, step))
  {
    hide AddWord;
    if step.CallbackAdd? {
      Increment(s.status);
    }
  }

  lemma CallbackKeepsLifecycle(s: State, step: Step)
    requires LifecycleInv(s) && CanStep(s, step) && IsCallbackStep(step)
    ensures LifecycleInv(Apply(s, step))
  {
  }

  lemma CallbackKeepsHistory(s: State, step: Step)
    requires HistoryInv(s) && CanStep(s, step) && IsCallbackStep(step)
    ensures HistoryInv(Apply(s, step))
  {
  }

  predicate IsControllerStep(step: Step) {
    !IsCallbackStep(step) && !IsWorkerStep(step) && !step.StartWorker?
  }

  lemma ControllerKeepsStatus(s: State, step: Step)
    requires StatusInv(s) && WakeInv(s) && LifecycleInv(s) && CanStep(s, step) && IsControllerStep(step)
    ensures StatusInv(Apply(s, step)) && WakeInv(Apply(s, step))
  {
  }

  lemma ControllerKeepsLifecycle(s: State, step: Step)
    requires LifecycleInv(s) && CanStep(s, step) && IsControllerStep(step)
    ensures LifecycleInv(Apply(s, step))
  {
  }

  lemma ControllerKeepsHistory(s: State, step: Step)
    requires OrderInv(s) && CanStep(s, step) && IsControllerStep(step)
    ensures HistoryInv(Apply(s, step))
  {
  }

  lemma WorkerKeepsStatus(s: State, step: Step)
    requires StatusInv(s) && CanStep(s, step) && (IsWorkerStep(step) || step.StartWorker?)
    requires s.notes < MAX_NOTES
    ensures StatusInv(Apply(s, step))
  {
    if step.WorkerSubtract? {
      Decrement(s.status);
    }
  }

  lemma Decrement(status: nat)
    requires status < WORD
    ensures AddWord(status, WORD - TRANSMITTING_DATA) == if status == 0 then WORD - 1 else status - 1
  {
  }

  lemma WorkerKeepsWake(s: State, step: Step)
    requires StatusInv(s) && WakeInv(s) && LifecycleInv(s)
    requires CanStep(s, step) && (IsWorkerStep(step) || step.StartWorker?)
    ensures WakeInv(Apply(s, step))
  {
    hide AddWord, AllEnabled, RecordOffer;
    if step.WorkerSubtract? {
      Decrement(s.status);
    }
  }

  /** The worker touches nothing of the controller's, and wakes up only while the track is enabled. */
  lemma WorkerShape(s: State, step: Step)
    requires LifecycleInv(s) && CanStep(s, step) && (IsWorkerStep(step) || step.StartWorker?)
    ensures var t := Apply(s, step);
            && t.enabled == s.enabled && t.readerEnabled == s.readerEnabled && t.lock == s.lock
            && t.writers == s.writers && t.controller == s.controller
            && (Sleeping(s) && !s.enabled ==> Sleeping(t))
            && (t.worker.Writing? ==> s.readerEnabled && t.worker.todo <= s.writers.Keys)
            && (t.worker.Dequeuing? || t.worker.Subtracting? ==> s.readerEnabled)
            && (t.worker.Dequeuing? ==> !s.controller.NotifyPending? && !s.controller.Notifying?)
  {
    hide AddWord, RecordOffer, AllEnabled;
  }

  lemma WorkerKeepsLifecycle(s: State, step: Step)
    requires LifecycleInv(s) && CanStep(s, step) && (IsWorkerStep(step) || step.StartWorker?)
    ensures LifecycleInv(Apply(s, step))
  {
    hide Apply, CanStep, Sleeping;
    WorkerShape(s, step);
  }

  lemma WorkerKeepsHistory(s: State, step: Step)
    requires LifecycleInv(s) && HistoryInv(s)
    requires CanStep(s, step) && (IsWorkerStep(step) || step.StartWorker?)
    ensures HistoryInv(Apply(s, step))
  {
    hide LifecycleInv, HistoryInv, Apply, CanStep;
    if step.WorkerWrite? {
      WriteKeepsHistory(s, step.id);
    } else if step.WorkerTake? {
      TakeKeepsHistory(s);
    } else if step.WorkerWritten? {
      WrittenKeepsHistory(s);
    } else {
      OthersKeepHistory(s, step);
    }
  }

  lemma OthersKeepHistory(s: State, step: Step)
    requires HistoryInv(s) && CanStep(s, step) && (IsWorkerStep(step) || step.StartWorker?)
    requires !step.WorkerWrite? && !step.WorkerTake? && !step.WorkerWritten?
    ensures HistoryInv(Apply(s, step))
  {
    hide Sound, Complete, Offered, LifecycleInv, AddWord;
  }

  lemma WrittenKeepsHistory(s: State)
    requires HistoryInv(s) && CanStep(s, WorkerWritten)
    ensures HistoryInv(Apply(s, WorkerWritten))
  {
    hide Sound;
  }

  lemma TakeKeepsHistory(s: State)
    requires LifecycleInv(s) && HistoryInv(s) && CanStep(s, WorkerTake)
    ensures HistoryInv(Apply(s, WorkerTake))
  {
    var t := Apply(s, WorkerTake);
    if t.worker.Writing? {
      assert t.deliveries == s.deliveries + [Delivery(s.queue[0], s.writers.Keys, [])];
      assert [s.queue[0]] + s.queue[1..] == s.queue;
    }
  }

  lemma WriteKeepsHistory(s: State, id: ParticipantId)
    requires LifecycleInv(s) && HistoryInv(s) && CanStep(s, WorkerWrite(id))
    ensures HistoryInv(Apply(s, WorkerWrite(id)))
  {
    var t := Apply(s, WorkerWrite(id));
    var n := |s.deliveries| - 1;
    var d, e := s.deliveries[n], t.deliveries[n];
    assert e.offers == d.offers + [Offer(id, true)];
    assert id !in Offered(d);
    forall k | 0 <= k < |d.offers| ensures d.offers[k].target != id {
      assert d.offers[k].target in Offered(d);
    }
    assert Offered(e) == Offered(d) + {id} by {
      forall x | x in Offered(d) + {id} ensures x in Offered(e) {
        if x == id {
          assert e.offers[|d.offers|].target == id;
        } else {
          var k :| 0 <= k < |d.offers| && d.offers[k].target == x;
          assert e.offers[k].target == x;
        }
      }
    }
  }
}
