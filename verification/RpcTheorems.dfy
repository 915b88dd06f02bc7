/** What the RPC protocol guarantees in every interleaving. */
module RpcTheorems {
  import opened DdsPipeTypes
  import opened ServiceRegistries
  import opened RpcProtocol
  import opened RpcInvariant

  lemma ReachableInv(c: Config, steps: seq<Step>)
    requires IsRun(c, Initial(), steps)
    ensures Inv(c, RpcProtocol.After(c, Initial(), steps))
  {
    InitialInv(c);
    RunKeepsInv(c, Initial(), steps);
  }

  function WorkersOn(s: State, r: ReaderId): set<nat> {
    set w | w in s.workers && s.workers[w].reader == r
  }

  /** The flag of a reader says how many of its transmit tasks are queued or running: one or none. */
  lemma FlagCountsTasks(c: Config, steps: seq<Step>, r: ReaderId)
    requires IsRun(c, Initial(), steps)
    ensures var s := RpcProtocol.After(c, Initial(), steps);
            s.queued[r] + |WorkersOn(s, r)| == if r in s.flags then 1 else 0
  {
    ReachableInv(c, steps);
    var s := RpcProtocol.After(c, Initial(), steps);
    hide IsRun, RpcProtocol.After;
    assert OneConsumer(s, r);
    if w: nat :| Runs(s, w, r) {
      forall v ensures v in WorkersOn(s, r) <==> v == w {
        assert v in WorkersOn(s, r) <==> Runs(s, v, r);
      }
      assert WorkersOn(s, r) == {w};
    } else {
      forall v ensures v !in WorkersOn(s, r) {
        assert v in WorkersOn(s, r) <==> Runs(s, v, r);
      }
      assert WorkersOn(s, r) == {};
    }
  }

  /** Between the check of the unread count and the take, nobody else takes. */
  lemma TakeNeverFindsItEmpty(c: Config, steps: seq<Step>, w: nat)
    requires IsRun(c, Initial(), steps)
    ensures var s := RpcProtocol.After(c, Initial(), steps);
            CanStep(c, s, Take(w)) ==> Unread(s, s.workers[w].reader) != []
  {
    ReachableInv(c, steps);
    hide IsRun, RpcProtocol.After, Unread;
  }

  /** In an enabled, settled bridge unread data always has a task queued or running, or a callback in flight. */
  lemma UnreadNeverWaits(c: Config, steps: seq<Step>, r: ReaderId)
    requires IsRun(c, Initial(), steps) && r in Readers(c)
    ensures var s := RpcProtocol.After(c, Initial(), steps);
            s.enabled && s.controller.Idle? && Unread(s, r) != [] ==>
              r in s.callbacks || s.queued[r] + |WorkersOn(s, r)| == 1
  {
    ReachableInv(c, steps);
    FlagCountsTasks(c, steps, r);
    hide IsRun, RpcProtocol.After, Unread, Readers, WorkersOn;
  }

  /** Between enable and disable every reader of every participant is enabled; after a disable, none is. */
  lemma ReadersFollowTheBridge(c: Config, steps: seq<Step>, p: ParticipantId)
    requires IsRun(c, Initial(), steps) && p in c.participants
    ensures var s := RpcProtocol.After(c, Initial(), steps);
            && (s.controller.Idle? && s.enabled ==>
                  RequestReader(p) in s.openReaders && ReplyReader(p) in s.openReaders)
            && (s.controller.Idle? && !s.enabled ==> s.openReaders == {})
  {
    ReachableInv(c, steps);
    var s := RpcProtocol.After(c, Initial(), steps);
    hide IsRun, RpcProtocol.After, FlagInv, DataInv, WakeInv, RecordInv, ProxyOf;
    InvParts(c, s);
  }

  // ----- What arrives at a reader

  function ArrivesNow(step: Step, r: ReaderId): seq<Sample> {
    if step.Arrive? && step.r == r then [step.sample] else []
  }

  /** What a worker gets from r in this step. */
  function TakenNow(c: Config, s: State, step: Step, r: ReaderId): seq<Sample>
    requires CanStep(c, s, step)
  {
    if step.Take? && s.workers[step.w].reader == r && r in s.openReaders && Unread(s, r) != [] then [Unread(s, r)[0]]
    else []
  }

  /** The samples that arrive at r, in order. */
  function ArrivingAt(steps: seq<Step>, r: ReaderId): seq<Sample> {
    if steps == [] then [] else ArrivesNow(steps[0], r) + ArrivingAt(steps[1..], r)
  }

  /** The samples that workers get from r, in order. */
  function TakenFrom(c: Config, s: State, steps: seq<Step>, r: ReaderId): seq<Sample>
    requires IsRun(c, s, steps)
    decreases |steps|
  {
    if steps == [] then [] else TakenNow(c, s, steps[0], r) + TakenFrom(c, Apply(c, s, steps[0]), steps[1..], r)
  }

  lemma OneStepOfReader(c: Config, s: State, step: Step, r: ReaderId)
    requires CanStep(c, s, step)
    ensures TakenNow(c, s, step, r) + Unread(Apply(c, s, step), r) == Unread(s, r) + ArrivesNow(step, r)
  {
    UnreadAfter(c, s, step, r);
    hide Apply, ProxyOf, Skips, Unread;
  }

  /** Nothing is lost or reordered at a reader, enabled or not: what was taken and what waits is what arrived. */
  lemma {:induction false} ArrivedIsTakenOrWaiting(c: Config, s: State, steps: seq<Step>, r: ReaderId)
    requires IsRun(c, s, steps)
    ensures TakenFrom(c, s, steps, r) + Unread(RpcProtocol.After(c, s, steps), r)
         == Unread(s, r) + ArrivingAt(steps, r)
    decreases |steps|
  {
    hide Apply, CanStep, Unread, TakenNow, ArrivesNow;
    if steps != [] {
      var t := Apply(c, s, steps[0]);
      OneStepOfReader(c, s, steps[0], r);
      ArrivedIsTakenOrWaiting(c, t, steps[1..], r);
      var now, later, rest := TakenNow(c, s, steps[0], r), TakenFrom(c, t, steps[1..], r), ArrivingAt(steps[1..], r);
      Regroup(now, later, Unread(RpcProtocol.After(c, s, steps), r), Unread(t, r), rest, Unread(s, r),
              ArrivesNow(steps[0], r));
    }
  }

  lemma Regroup<T>(now: seq<T>, later: seq<T>, end: seq<T>, mid: seq<T>, rest: seq<T>, start: seq<T>, first: seq<T>)
    requires later + end == mid + rest && now + mid == start + first
    ensures (now + later) + end == start + (first + rest)
  {
    assert (now + later) + end == now + (later + end);
    assert now + (mid + rest) == (now + mid) + rest;
  }

  /** Each reply goes out as recorded when its request was forwarded, and no request is answered twice. */
  lemma RepliesAreCorrelated(c: Config, steps: seq<Step>, k: nat)
    requires IsRun(c, Initial(), steps) && k < |RpcProtocol.After(c, Initial(), steps).replies|
    ensures var s := RpcProtocol.After(c, Initial(), steps);
            var reply := s.replies[k];
            && reply.number in ProxyOf(s, reply.p).forwarded
            && ProxyOf(s, reply.p).forwarded[reply.number] == Entry(reply.via, reply.identity)
            && forall j :: 0 <= j < |s.replies| && j != k
                 ==> s.replies[j].p != reply.p || s.replies[j].number != reply.number
  {
    ReachableInv(c, steps);
    var s := RpcProtocol.After(c, Initial(), steps);
    hide IsRun, RpcProtocol.After, ProxyOf;
    assert Recorded(s, k) && Distinct(s.replies);
  }

  /**
   When a reply is looked up, its entry has been added already.  It is still there unless the request has
   been answered or 4999 newer ones pushed it out.
   */
  lemma LookedUpAfterAdded(c: Config, steps: seq<Step>, w: nat)
    requires IsRun(c, Initial(), steps)
    ensures var s := RpcProtocol.After(c, Initial(), steps);
            CanStep(c, s, LookUp(w)) ==>
              var x, n := ProxyOf(s, s.workers[w].reader.p), s.workers[w].pc.number;
              n in x.added && (n in x.registry || n in x.replied || n in x.evicted)
  {
    hide IsRun, RpcProtocol.After, ProxyOf, Inv, LockInv, AnsweredInv, PendingInv, Skips, Unread;
    ReachableInv(c, steps);
    var s := RpcProtocol.After(c, Initial(), steps);
    if CanStep(c, s, LookUp(w)) {
      ProxyFacts(c, s, s.workers[w].reader.p);
      WorkerFacts(c, s, w);
    }
  }

  // ----- Where the answered requests came from

  /** A request of `identity` that arrived at participant p. */
  datatype Arrival = Arrival(p: ParticipantId, identity: SampleIdentity)

  function Arrivals(steps: seq<Step>): set<Arrival> {
    if steps == [] then {}
    else
      (if steps[0].Arrive? && steps[0].sample.Request? then {Arrival(steps[0].r.p, steps[0].sample.identity)} else {})
      + Arrivals(steps[1..])
  }

  predicate PcFrom(worker: Worker, arrived: set<Arrival>) {
    worker.pc.Forwarding? || worker.pc.Locked? || worker.pc.Written? ==>
      Arrival(worker.reader.p, worker.pc.identity) in arrived
  }

  predicate UnreadFrom(s: State, r: ReaderId, arrived: set<Arrival>) {
    forall k :: 0 <= k < |Unread(s, r)| && Unread(s, r)[k].Request?
        ==> Arrival(r.p, Unread(s, r)[k].identity) in arrived
  }

  predicate ForwardedFrom(x: Proxy, arrived: set<Arrival>) {
    forall n :: n in x.forwarded ==> Arrival(x.forwarded[n].participant, x.forwarded[n].identity) in arrived
  }

  ghost predicate FromArrivals(s: State, arrived: set<Arrival>) {
    && (forall r :: UnreadFrom(s, r, arrived))
    && (forall w :: w in s.workers ==> PcFrom(s.workers[w], arrived))
    && (forall q :: ForwardedFrom(ProxyOf(s, q), arrived))
  }

  lemma StepKeepsUnreadFrom(c: Config, s: State, step: Step, r: ReaderId, arrived: set<Arrival>)
    requires UnreadFrom(s, r, arrived) && CanStep(c, s, step)
    ensures UnreadFrom(Apply(c, s, step), r, arrived + Arrivals([step]))
  {
    UnreadAfter(c, s, step, r);
    assert [step][1..] == [];
    hide Apply, ProxyOf, Skips, Unread;
  }

  lemma StepKeepsPcFrom(c: Config, s: State, step: Step, arrived: set<Arrival>)
    requires MovesWorker(s, step) && CanStep(c, s, step)
    requires PcFrom(s.workers[step.w], arrived) && UnreadFrom(s, s.workers[step.w].reader, arrived)
    ensures PcFrom(Worker(s.workers[step.w].reader, PcAfter(c, s, step)), arrived)
  {
    hide ProxyOf, Skips, Unread;
  }

  lemma StepKeepsForwardedFrom(c: Config, s: State, step: Step, q: ParticipantId, arrived: set<Arrival>)
    requires CanStep(c, s, step) && ForwardedFrom(ProxyOf(s, q), arrived)
    requires MovesWorker(s, step) ==> PcFrom(s.workers[step.w], arrived)
    ensures ForwardedFrom(ProxyOf(Apply(c, s, step), q), arrived)
  {
    hide Apply, CanStep, ProxyOf, PcAfter, Added;
    if MovesWorker(s, step) {
      MovedBy(c, s, step, q);
    } else {
      OtherShape(c, s, step);
    }
  }

  lemma StepKeepsFromArrivals(c: Config, s: State, step: Step, arrived: set<Arrival>)
    requires FromArrivals(s, arrived) && CanStep(c, s, step)
    ensures FromArrivals(Apply(c, s, step), arrived + Arrivals([step]))
  {
    var t, more := Apply(c, s, step), arrived + Arrivals([step]);
    forall r ensures UnreadFrom(t, r, more) {
      StepKeepsUnreadFrom(c, s, step, r, arrived);
    }
    forall q ensures ForwardedFrom(ProxyOf(t, q), more) {
      StepKeepsForwardedFrom(c, s, step, q, arrived);
    }
    forall w | w in t.workers ensures PcFrom(t.workers[w], more) {
      StepKeepsWorkerFrom(c, s, step, w, arrived);
    }
    hide Apply, ProxyOf, Unread, ForwardedFrom, UnreadFrom;
  }

  lemma StepKeepsWorkerFrom(c: Config, s: State, step: Step, w: nat, arrived: set<Arrival>)
    requires FromArrivals(s, arrived) && CanStep(c, s, step) && w in Apply(c, s, step).workers
    ensures PcFrom(Apply(c, s, step).workers[w], arrived)
  {
    if MovesWorker(s, step) {
      assert PcFrom(s.workers[step.w], arrived) && UnreadFrom(s, s.workers[step.w].reader, arrived);
      StepKeepsPcFrom(c, s, step, arrived);
      WorkerShape(c, s, step);
    } else {
      OtherShape(c, s, step);
    }
    hide Apply, ProxyOf, Unread, PcAfter, ProxyAfter, ForwardedFrom, UnreadFrom;
  }

  lemma {:induction false} RunKeepsFromArrivals(c: Config, s: State, steps: seq<Step>, arrived: set<Arrival>)
    requires FromArrivals(s, arrived) && IsRun(c, s, steps)
    ensures FromArrivals(RpcProtocol.After(c, s, steps), arrived + Arrivals(steps))
    decreases |steps|
  {
    hide Apply, CanStep, FromArrivals;
    if steps == [] {
      assert arrived + Arrivals(steps) == arrived;
    } else {
      StepKeepsFromArrivals(c, s, steps[0], arrived);
      RunKeepsFromArrivals(c, Apply(c, s, steps[0]), steps[1..], arrived + Arrivals([steps[0]]));
      assert [steps[0]][1..] == [];
      assert arrived + Arrivals([steps[0]]) + Arrivals(steps[1..]) == arrived + Arrivals(steps);
    }
  }

  /** Every reply is sent through a participant at which a request of that very identity arrived. */
  lemma RepliesAnswerArrivedRequests(c: Config, steps: seq<Step>, k: nat)
    requires IsRun(c, Initial(), steps) && k < |RpcProtocol.After(c, Initial(), steps).replies|
    ensures var reply := RpcProtocol.After(c, Initial(), steps).replies[k];
            exists i :: 0 <= i < |steps| && steps[i] == Arrive(RequestReader(reply.via), Request(reply.identity))
  {
    var s := RpcProtocol.After(c, Initial(), steps);
    RepliesAreCorrelated(c, steps, k);
    assert FromArrivals(Initial(), {});
    RunKeepsFromArrivals(c, Initial(), steps, {});
    var reply := s.replies[k];
    assert ForwardedFrom(ProxyOf(s, reply.p), Arrivals(steps)) by {
      assert {} + Arrivals(steps) == Arrivals(steps);
    }
    hide ProxyOf, Apply;
    var i := ArrivalStep(c, Initial(), steps, Arrival(reply.via, reply.identity));
  }

  lemma {:induction false} ArrivalStep(c: Config, s: State, steps: seq<Step>, a: Arrival) returns (i: nat)
    requires a in Arrivals(steps) && IsRun(c, s, steps)
    ensures i < |steps| && steps[i] == Arrive(RequestReader(a.p), Request(a.identity))
    decreases |steps|
  {
    hide Apply, Skips;
    if steps[0].Arrive? && steps[0].sample.Request? && a == Arrival(steps[0].r.p, steps[0].sample.identity) {
      i := 0;
    } else {
      var j := ArrivalStep(c, Apply(c, s, steps[0]), steps[1..], a);
      i := j + 1;
    }
  }

  // ----- Disabled means silent

  /** Once disable has waited for the transmissions, workers only find out that they must stop. */
  ghost predicate QuietInv(c: Config, s: State) {
    && (!s.enabled && !s.controller.Draining? ==> forall w :: w in s.workers ==> s.workers[w].pc.Checking?)
    && (s.controller.Draining? ==> s.openReaders == Readers(c))
    && (s.controller.Enabling? || s.controller.Announcing? ==> s.openReaders !! s.controller.toEnable)
    && s.flags <= Readers(c) && s.callbacks.Keys <= Readers(c)
  }

  lemma ReaderKeepsQuiet(c: Config, s: State, step: Step)
    requires QuietInv(c, s) && s.openReaders <= Readers(c) && CanStep(c, s, step) && IsReaderStep(step)
    ensures QuietInv(c, ReaderStep(c, s, step))
  {
    hide Readers, ProxyOf, Unread;
    ReaderKeepsController(c, s, step);
  }

  lemma ControllerKeepsQuiet(c: Config, s: State, step: Step)
    requires QuietInv(c, s) && ControllerInv(c, s) && CanStep(c, s, step) && IsControllerStep(step)
    ensures QuietInv(c, ControllerStep(c, s, step))
  {
    hide Readers;
  }

  lemma StepKeepsQuiet(c: Config, s: State, step: Step)
    requires QuietInv(c, s) && ControllerInv(c, s) && CanStep(c, s, step)
    ensures QuietInv(c, Apply(c, s, step))
  {
    assert s.openReaders <= Readers(c);
    hide QuietInv, ControllerInv, CanStep, WorkerStep, ReaderStep, ControllerStep;
    if IsWorkerStep(step) {
      WorkerKeepsQuiet(c, s, step);
    } else if IsReaderStep(step) {
      ReaderKeepsQuiet(c, s, step);
    } else {
      ControllerKeepsQuiet(c, s, step);
    }
  }

  lemma WorkerKeepsQuiet(c: Config, s: State, step: Step)
    requires QuietInv(c, s) && CanStep(c, s, step) && IsWorkerStep(step)
    ensures QuietInv(c, WorkerStep(c, s, step))
  {
    WorkerKeepsController(c, s, step);
    hide Readers, Skips, ProxyOf, Unread, PcAfter, ProxyAfter, Edited, Answers;
  }

  lemma InitialQuiet(c: Config)
    ensures QuietInv(c, Initial())
  {
  }

  lemma {:induction false} RunKeepsQuiet(c: Config, s: State, steps: seq<Step>)
    requires Inv(c, s) && QuietInv(c, s) && IsRun(c, s, steps)
    ensures QuietInv(c, RpcProtocol.After(c, s, steps))
    decreases |steps|
  {
    if steps != [] {
      assert ControllerInv(c, s);
      hide Inv, QuietInv, ControllerInv, Apply, CanStep;
      StepKeepsInv(c, s, steps[0]);
      StepKeepsQuiet(c, s, steps[0]);
      RunKeepsQuiet(c, Apply(c, s, steps[0]), steps[1..]);
    }
  }

  /** Nothing is taken, written or recorded once disable is past its wait and until the next enable. */
  lemma NothingHappensWhileDisabled(c: Config, steps: seq<Step>, step: Step)
    requires IsRun(c, Initial(), steps)
    ensures var s := RpcProtocol.After(c, Initial(), steps);
            && CanStep(c, s, step) && IsWorkerStep(step) && !s.enabled && !s.controller.Draining? ==>
              EndsTask(s, step)
  {
    InitialInv(c);
    RunKeepsQuiet(c, Initial(), steps);
    hide IsRun, RpcProtocol.After, Readers, Skips, ProxyOf, Unread;
  }
}
