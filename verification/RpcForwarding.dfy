/** What becomes of the requests and replies that the workers of the RPC bridge take. */
module RpcForwarding {
  import opened DdsPipeTypes
  import opened ServiceRegistries
  import opened RpcProtocol
  import opened RpcInvariant

  // ----- To whom requests go

  predicate IsForwarding(pc: Pc) {
    pc.Forwarding? || pc.Locked? || pc.Written?
  }

  /** A well-formed request goes back through its receiver only for a repeater, and only where a server is. */
  predicate MayGo(c: Config, received: ParticipantId, identity: SampleIdentity, q: ParticipantId, x: Proxy) {
    x.open && (received == q ==> q in c.repeaters) && identity != UNKNOWN_IDENTITY
  }

  predicate SentWell(c: Config, q: ParticipantId, x: Proxy) {
    forall n :: n in x.forwarded ==> MayGo(c, x.forwarded[n].participant, x.forwarded[n].identity, q, x)
  }

  predicate WorkerSendsWell(c: Config, s: State, worker: Worker) {
    var pc := worker.pc;
    && (IsForwarding(pc) ==> pc.identity != UNKNOWN_IDENTITY)
    && (pc.Locked? || pc.Written? ==> MayGo(c, worker.reader.p, pc.identity, pc.q, ProxyOf(s, pc.q)))
  }

  ghost predicate SentInv(c: Config, s: State) {
    && (forall q :: SentWell(c, q, ProxyOf(s, q)))
    && (forall w :: w in s.workers ==> WorkerSendsWell(c, s, s.workers[w]))
  }

  lemma ReaderKeepsOpen(c: Config, s: State, step: Step, q: ParticipantId)
    requires CanStep(c, s, step) && IsReaderStep(step)
    ensures ProxyOf(s, q).open ==> ProxyOf(ReaderStep(c, s, step), q).open
  {
    hide CanStep, Unread;
  }

  lemma EndKeepsProxies(c: Config, s: State, step: Step)
    requires CanStep(c, s, step) && EndsTask(s, step)
    ensures WorkerStep(c, s, step).proxies == s.proxies
  {
    hide PcAfter, ProxyAfter, Edited, Answers, Unread;
  }

  lemma OpenStaysOpen(c: Config, s: State, step: Step, q: ParticipantId)
    requires CanStep(c, s, step)
    ensures ProxyOf(s, q).open ==> ProxyOf(Apply(c, s, step), q).open
  {
    hide CanStep, WorkerStep, ReaderStep, ControllerStep, Added;
    if MovesWorker(s, step) {
      hide Apply, ProxyOf;
      MovedBy(c, s, step, q);
    } else if IsReaderStep(step) {
      ReaderKeepsOpen(c, s, step, q);
    } else if IsControllerStep(step) {
      ControllerShape(c, s, step);
    } else {
      EndKeepsProxies(c, s, step);
    }
  }

  lemma MoveSendsWell(c: Config, worker: Worker, next: Pc, x: Proxy, y: Proxy, w: nat, q: ParticipantId)
    requires ProxyMove(worker.reader, worker.pc, next, x, y, w, q) && SentWell(c, q, x)
    requires (worker.pc.Locked? || worker.pc.Written?) && worker.pc.q == q ==>
               MayGo(c, worker.reader.p, worker.pc.identity, q, x)
    ensures SentWell(c, q, y)
  {
    hide Added;
  }

  lemma StepSendsWell(c: Config, s: State, step: Step, q: ParticipantId)
    requires SentInv(c, s) && CanStep(c, s, step)
    ensures SentWell(c, q, ProxyOf(Apply(c, s, step), q))
  {
    hide Apply, CanStep, ProxyOf, ProxyMove, PcAfter;
    assert SentWell(c, q, ProxyOf(s, q));
    if MovesWorker(s, step) {
      MovedBy(c, s, step, q);
      MoveSendsWell(c, s.workers[step.w], PcAfter(c, s, step), ProxyOf(s, q), ProxyOf(Apply(c, s, step), q), step.w, q);
    } else {
      OtherShape(c, s, step);
      OpenStaysOpen(c, s, step, q);
    }
  }

  /** The worker that moves: it locks only where the request may go. */
  lemma NextSendsWell(c: Config, s: State, step: Step)
    requires CanStep(c, s, step) && MovesWorker(s, step) && WorkerSendsWell(c, s, s.workers[step.w])
    ensures WorkerSendsWell(c, s, Worker(s.workers[step.w].reader, PcAfter(c, s, step)))
  {
    hide ProxyOf, Unread, Added;
  }

  lemma OpenKeepsWorker(c: Config, s: State, t: State, worker: Worker)
    requires WorkerSendsWell(c, s, worker) && forall q :: ProxyOf(s, q).open ==> ProxyOf(t, q).open
    ensures WorkerSendsWell(c, t, worker)
  {
    hide ProxyOf;
  }

  lemma StepKeepsSender(c: Config, s: State, step: Step, v: nat)
    requires SentInv(c, s) && CanStep(c, s, step) && v in Apply(c, s, step).workers
    ensures WorkerSendsWell(c, Apply(c, s, step), Apply(c, s, step).workers[v])
  {
    hide Apply, ProxyOf, PcAfter, SentWell, WorkerSendsWell, ProxyAfter, Edited, Answers, Skips, Unread;
    var t := Apply(c, s, step);
    assert MovesWorker(s, step) ==> step.w in s.workers;
    hide CanStep;
    forall q ensures ProxyOf(s, q).open ==> ProxyOf(t, q).open {
      OpenStaysOpen(c, s, step, q);
    }
    if !MovesWorker(s, step) {
      OtherShape(c, s, step);
      if v in s.workers {
        OpenKeepsWorker(c, s, t, s.workers[v]);
      } else {
        CheckingSendsNothing(c, t, t.workers[v]);
      }
    } else {
      WorkerShape(c, s, step);
      if v == step.w {
        NextSendsWell(c, s, step);
      }
      OpenKeepsWorker(c, s, t, t.workers[v]);
    }
  }

  lemma CheckingSendsNothing(c: Config, s: State, worker: Worker)
    requires worker.pc.Checking?
    ensures WorkerSendsWell(c, s, worker)
  {
  }

  lemma {:induction false} RunSendsWell(c: Config, s: State, steps: seq<Step>)
    requires SentInv(c, s) && IsRun(c, s, steps)
    ensures SentInv(c, RpcProtocol.After(c, s, steps))
    decreases |steps|
  {
    hide Apply, CanStep, SentWell, WorkerSendsWell, ProxyOf;
    if steps != [] {
      var t := Apply(c, s, steps[0]);
      forall q ensures SentWell(c, q, ProxyOf(t, q)) {
        StepSendsWell(c, s, steps[0], q);
      }
      forall v | v in t.workers ensures WorkerSendsWell(c, t, t.workers[v]) {
        StepKeepsSender(c, s, steps[0], v);
      }
      RunSendsWell(c, t, steps[1..]);
    }
  }

  /**
   In every run, whatever is written through participant q is a well-formed request, through q there is a server,
   and the request was received by somebody else unless q is a repeater.
   */
  lemma RequestsGoElsewhere(c: Config, steps: seq<Step>, q: ParticipantId, n: SequenceNumber)
    requires IsRun(c, Initial(), steps) && n in ProxyOf(RpcProtocol.After(c, Initial(), steps), q).forwarded
    ensures var x := ProxyOf(RpcProtocol.After(c, Initial(), steps), q);
            && x.open && x.forwarded[n].identity != UNKNOWN_IDENTITY
            && (x.forwarded[n].participant == q ==> q in c.repeaters)
  {
    hide IsRun, RpcProtocol.After;
    RunSendsWell(c, Initial(), steps);
    assert SentWell(c, q, ProxyOf(RpcProtocol.After(c, Initial(), steps), q));
  }

  /** Only the discovery of a server opens a registry. */
  lemma StepOpens(c: Config, s: State, step: Step, q: ParticipantId)
    requires CanStep(c, s, step)
    ensures ProxyOf(Apply(c, s, step), q).open <==> ProxyOf(s, q).open || step == OpenRegistry(q)
  {
    hide CanStep, WorkerStep, ControllerStep, Added;
    if MovesWorker(s, step) {
      hide Apply, ProxyOf, ReaderStep;
      MovedBy(c, s, step, q);
    } else if IsReaderStep(step) {
      hide Unread;
    } else if IsControllerStep(step) {
      ControllerShape(c, s, step);
    } else {
      EndKeepsProxies(c, s, step);
    }
  }

  /** In every run: a request may go through q exactly if a server was discovered there. */
  lemma {:induction false} OpenMeansDiscovered(c: Config, s: State, steps: seq<Step>, q: ParticipantId)
    requires IsRun(c, s, steps)
    ensures ProxyOf(RpcProtocol.After(c, s, steps), q).open <==> ProxyOf(s, q).open || OpenRegistry(q) in steps
    decreases |steps|
  {
    hide Apply, CanStep, ProxyOf;
    if steps != [] {
      StepOpens(c, s, steps[0], q);
      OpenMeansDiscovered(c, Apply(c, s, steps[0]), steps[1..], q);
    }
  }

  // ----- What becomes of a request

  /** Worker w still has to consider q for its request. */
  predicate IsPending(s: State, w: nat, q: ParticipantId) {
    && w in s.workers && IsForwarding(s.workers[w].pc)
    && (q in s.workers[w].pc.todo || (s.workers[w].pc.Locked? && s.workers[w].pc.q == q))
  }

  /** The worker has been busy with the same request all along. */
  predicate SameRequest(s: State, t: State, w: nat) {
    && w in s.workers && w in t.workers && IsForwarding(s.workers[w].pc) && IsForwarding(t.workers[w].pc)
    && t.workers[w].reader == s.workers[w].reader && t.workers[w].pc.identity == s.workers[w].pc.identity
  }

  /** The request is written through q, under a number not used before. */
  ghost predicate IsWritten(u: State, v: State, w: nat, q: ParticipantId)
    requires w in u.workers && IsForwarding(u.workers[w].pc)
  {
    exists n :: n !in ProxyOf(u, q).forwarded && n in ProxyOf(v, q).forwarded
             && ProxyOf(v, q).forwarded[n] == Entry(u.workers[w].reader.p, u.workers[w].pc.identity)
  }

  /**
   The step from u settles q for the request of w: it is passed over, because there is no server or because q
   received the request and is no repeater, or its write fails, or it is written.
   */
  ghost predicate Settles(c: Config, u: State, step: Step, v: State, w: nat, q: ParticipantId) {
    && w in u.workers && IsForwarding(u.workers[w].pc)
    && (|| (step == SkipRegistry(w, q)
            && (!ProxyOf(u, q).open || (u.workers[w].reader.p == q && q !in c.repeaters)))
        || (step == WriteRequest(w, false) && u.workers[w].pc.Locked? && u.workers[w].pc.q == q)
        || (step == WriteRequest(w, true) && IsWritten(u, v, w, q)))
  }

  ghost function StateAt(c: Config, s: State, steps: seq<Step>, k: nat): State
    requires IsRun(c, s, steps) && k <= |steps|
    decreases |steps|
  {
    if k == 0 then s else StateAt(c, Apply(c, s, steps[0]), steps[1..], k - 1)
  }

  /** At step k of the run, q is settled for the request that w has been busy with since its start. */
  ghost predicate SettledAt(c: Config, s: State, steps: seq<Step>, k: nat, w: nat, q: ParticipantId) {
    && IsRun(c, s, steps) && k < |steps| && SameRequest(s, StateAt(c, s, steps, k), w)
    && Settles(c, StateAt(c, s, steps, k), steps[k], StateAt(c, s, steps, k + 1), w, q)
  }

  ghost predicate WasSettled(c: Config, s: State, steps: seq<Step>, w: nat, q: ParticipantId) {
    exists k :: SettledAt(c, s, steps, k, w, q)
  }

  lemma OwnStepGoesOn(c: Config, s: State, step: Step, w: nat, q: ParticipantId)
    requires IsPending(s, w, q) && CanStep(c, s, step) && IsWorkerStep(step) && step.w == w
    requires !(step.SkipRegistry? && step.q == q) && !(step.WriteRequest? && s.workers[w].pc.q == q)
    ensures var next := PcAfter(c, s, step);
            && IsForwarding(next) && next.identity == s.workers[w].pc.identity && MovesWorker(s, step)
            && (q in next.todo || (next.Locked? && next.q == q))
  {
    hide Skips, ProxyOf, Unread;
  }

  /** A worker that is busy is moved by its own steps only. */
  lemma BusyWorkerStays(c: Config, s: State, step: Step, w: nat)
    requires CanStep(c, s, step) && w in s.workers && !s.workers[w].pc.Checking?
    requires !(IsWorkerStep(step) && step.w == w)
    ensures var t := Apply(c, s, step); w in t.workers && t.workers[w] == s.workers[w]
  {
    hide Apply, Skips, ProxyOf, Unread, PcAfter, ProxyAfter, Edited, Answers;
    if MovesWorker(s, step) {
      WorkerShape(c, s, step);
    } else {
      OtherShape(c, s, step);
    }
    hide CanStep;
  }

  lemma SkipSettles(c: Config, s: State, w: nat, q: ParticipantId)
    requires CanStep(c, s, SkipRegistry(w, q))
    ensures Settles(c, s, SkipRegistry(w, q), Apply(c, s, SkipRegistry(w, q)), w, q)
  {
    hide Apply, ProxyOf;
  }

  lemma WriteSettles(c: Config, s: State, w: nat, ok: bool)
    requires CanStep(c, s, WriteRequest(w, ok)) && SequenceInv(s, s.workers[w].pc.q)
    ensures Settles(c, s, WriteRequest(w, ok), Apply(c, s, WriteRequest(w, ok)), w, s.workers[w].pc.q)
  {
    var t, q := Apply(c, s, WriteRequest(w, ok)), s.workers[w].pc.q;
    WorkerShape(c, s, WriteRequest(w, ok));
    hide Apply, ProxyOf;
    if ok {
      var n := ProxyOf(s, q).next;
      assert n !in ProxyOf(s, q).forwarded && n in ProxyOf(t, q).forwarded;
    }
  }

  lemma OneStepOn(c: Config, s: State, step: Step, w: nat, q: ParticipantId)
    requires SequenceInv(s, q) && IsPending(s, w, q) && CanStep(c, s, step)
    ensures var t := Apply(c, s, step);
            Settles(c, s, step, t, w, q) || (IsPending(t, w, q) && SameRequest(s, t, w))
  {
    if !(IsWorkerStep(step) && step.w == w) {
      hide Apply, CanStep, ProxyOf, Settles;
      BusyWorkerStays(c, s, step, w);
    } else if step.SkipRegistry? && step.q == q {
      hide Apply, CanStep, Settles;
      SkipSettles(c, s, w, q);
    } else if step.WriteRequest? && s.workers[w].pc.q == q {
      WriteSettles(c, s, w, step.ok);
      hide Apply, CanStep, Settles;
    } else {
      hide Apply, CanStep, ProxyOf, Settles, PcAfter, ProxyAfter, Edited, Answers;
      OwnStepGoesOn(c, s, step, w, q);
      WorkerShape(c, s, step);
    }
  }

  /** From the take on: q is settled at some step, or the worker is still busy with the request. */
  lemma {:induction false} RequestGoesOn(c: Config, s: State, steps: seq<Step>, w: nat, q: ParticipantId)
    requires Inv(c, s) && IsPending(s, w, q) && IsRun(c, s, steps)
    ensures var t := RpcProtocol.After(c, s, steps);
            WasSettled(c, s, steps, w, q) || (IsPending(t, w, q) && SameRequest(s, t, w))
    decreases |steps|
  {
    hide Inv, Apply, CanStep, Settles, SequenceInv;
    if steps != [] {
      var t := Apply(c, s, steps[0]);
      ProxyFacts(c, s, q);
      OneStepOn(c, s, steps[0], w, q);
      if Settles(c, s, steps[0], t, w, q) {
        assert StateAt(c, s, steps, 1) == t;
        assert SettledAt(c, s, steps, 0, w, q);
      } else {
        StepKeepsInv(c, s, steps[0]);
        RequestGoesOn(c, t, steps[1..], w, q);
        if k: nat :| SettledAt(c, t, steps[1..], k, w, q) {
          assert StateAt(c, s, steps, k + 1) == StateAt(c, t, steps[1..], k);
          assert StateAt(c, s, steps, k + 2) == StateAt(c, t, steps[1..], k + 1);
          assert SettledAt(c, s, steps, k + 1, w, q);
        }
      }
    }
  }

  lemma {:induction false} PrefixIsRun(c: Config, s: State, steps: seq<Step>, k: nat)
    requires IsRun(c, s, steps) && k <= |steps| && Inv(c, s)
    ensures Inv(c, StateAt(c, s, steps, k)) && IsRun(c, StateAt(c, s, steps, k), steps[k..])
    ensures RpcProtocol.After(c, StateAt(c, s, steps, k), steps[k..]) == RpcProtocol.After(c, s, steps)
    decreases |steps|
  {
    hide Inv, Apply, CanStep;
    if k == 0 {
      assert steps[0..] == steps;
    } else {
      StepKeepsInv(c, s, steps[0]);
      PrefixIsRun(c, Apply(c, s, steps[0]), steps[1..], k - 1);
      assert steps[1..][k - 1..] == steps[k..];
    }
  }

  /** At step k of the run, worker w takes this sample from reader r. */
  ghost predicate TakesAt(c: Config, steps: seq<Step>, k: nat, w: nat, r: ReaderId, sample: Sample) {
    && IsRun(c, Initial(), steps) && k < |steps| && steps[k] == Take(w)
    && var u := StateAt(c, Initial(), steps, k);
       && w in u.workers && u.workers[w].reader == r && r in u.openReaders
       && Unread(u, r) != [] && Unread(u, r)[0] == sample
  }

  lemma {:induction false} StepAt(c: Config, s: State, steps: seq<Step>, k: nat)
    requires IsRun(c, s, steps) && k < |steps|
    ensures CanStep(c, StateAt(c, s, steps, k), steps[k])
    ensures StateAt(c, s, steps, k + 1) == Apply(c, StateAt(c, s, steps, k), steps[k])
    decreases |steps|
  {
    hide Apply, CanStep;
    if k > 0 {
      StepAt(c, Apply(c, s, steps[0]), steps[1..], k - 1);
    } else {
      assert StateAt(c, Apply(c, s, steps[0]), steps[1..], 0) == Apply(c, s, steps[0]);
    }
  }

  lemma TakeStarts(c: Config, u: State, w: nat, r: ReaderId, sample: Sample)
    requires CanStep(c, u, Take(w)) && u.workers[w].reader == r
    requires r in u.openReaders && Unread(u, r) != [] && Unread(u, r)[0] == sample
    ensures var v := Apply(c, u, Take(w));
            && w in v.workers && v.workers[w] == Worker(r, AfterTake(c, sample)) && Unread(v, r) == Unread(u, r)[1..]
  {
    WorkerShape(c, u, Take(w));
    UnreadAfter(c, u, Take(w), r);
    hide Apply, ProxyOf, ProxyAfter, Edited, Answers, AfterTake;
  }

  /** The state after the take, from which the rest of the run goes on. */
  lemma TakeLeadsOn(c: Config, steps: seq<Step>, k: nat, w: nat, r: ReaderId, sample: Sample)
    requires TakesAt(c, steps, k, w, r, sample)
    ensures var v := StateAt(c, Initial(), steps, k + 1);
            && w in v.workers && v.workers[w] == Worker(r, AfterTake(c, sample)) && Inv(c, v)
            && IsRun(c, v, steps[k + 1..])
            && RpcProtocol.After(c, v, steps[k + 1..]) == RpcProtocol.After(c, Initial(), steps)
  {
    InitialInv(c);
    hide Inv, IsRun, RpcProtocol.After, StateAt, Apply, CanStep, AfterTake;
    PrefixIsRun(c, Initial(), steps, k + 1);
    StepAt(c, Initial(), steps, k);
    TakeStarts(c, StateAt(c, Initial(), steps, k), w, r, sample);
  }

  lemma WorkerForwards(
    c: Config, v: State, w: nat, r: ReaderId, identity: SampleIdentity, q: ParticipantId)
    requires w in v.workers && v.workers[w] == Worker(r, AfterTake(c, Request(identity)))
    requires identity != UNKNOWN_IDENTITY && q in c.participants
    ensures v.workers[w].reader == r && IsForwarding(v.workers[w].pc) && v.workers[w].pc.identity == identity
    ensures IsPending(v, w, q)
  {
  }

  lemma WorkerAnswers(c: Config, v: State, w: nat, p: ParticipantId, n: SequenceNumber)
    requires w in v.workers && v.workers[w] == Worker(ReplyReader(p), AfterTake(c, Reply(true, n)))
    ensures IsAnswering(v, w, p, n)
  {
  }

  /**
   In every run, a well-formed request that is taken is considered for every participant: it is written through q,
   or its write fails, or it is passed over because q has no server or has received it and is no repeater; unless
   its worker has not got so far yet.  Until then the worker does nothing else.
   */
  lemma EveryRequestIsOffered(
    c: Config, steps: seq<Step>, k: nat, w: nat, r: ReaderId, identity: SampleIdentity, q: ParticipantId)
    requires TakesAt(c, steps, k, w, r, Request(identity)) && identity != UNKNOWN_IDENTITY && q in c.participants
    ensures var v := StateAt(c, Initial(), steps, k + 1);
            && w in v.workers && v.workers[w].reader == r && IsForwarding(v.workers[w].pc)
            && v.workers[w].pc.identity == identity
            && IsRun(c, v, steps[k + 1..])
            && var t := RpcProtocol.After(c, Initial(), steps);
               || WasSettled(c, v, steps[k + 1..], w, q)
               || (IsPending(t, w, q) && SameRequest(v, t, w))
  {
    TakeLeadsOn(c, steps, k, w, r, Request(identity));
    hide *;
    WorkerForwards(c, StateAt(c, Initial(), steps, k + 1), w, r, identity, q);
    RequestGoesOn(c, StateAt(c, Initial(), steps, k + 1), steps[k + 1..], w, q);
  }

  // ----- What becomes of a reply

  /** Worker w has the reply to request n of its proxy client in hand, and has neither written nor given it up. */
  predicate IsAnswering(s: State, w: nat, p: ParticipantId, n: SequenceNumber) {
    && w in s.workers && s.workers[w].reader == ReplyReader(p)
    && ((s.workers[w].pc.Looking? || s.workers[w].pc.Replying?) && s.workers[w].pc.number == n)
  }

  /**
   The step from u settles the reply: nobody is registered to answer to, or the write fails, or the reply is
   written to whom request n was registered for.
   */
  ghost predicate SettlesReply(c: Config, u: State, step: Step, v: State, w: nat, p: ParticipantId, n: SequenceNumber) {
    || (step == LookUp(w) && (n !in ProxyOf(u, p).registry || ProxyOf(u, p).registry[n].participant == ""))
    || step == WriteReply(w, false)
    || (step == WriteReply(w, true) && n in ProxyOf(u, p).forwarded
        && var e := ProxyOf(u, p).forwarded[n]; v.replies == u.replies + [ReplyRecord(p, n, e.participant, e.identity)])
  }

  ghost predicate ReplySettledAt(
    c: Config, s: State, steps: seq<Step>, k: nat, w: nat, p: ParticipantId, n: SequenceNumber)
  {
    && IsRun(c, s, steps) && k < |steps| && IsAnswering(StateAt(c, s, steps, k), w, p, n)
    && SettlesReply(c, StateAt(c, s, steps, k), steps[k], StateAt(c, s, steps, k + 1), w, p, n)
  }

  ghost predicate ReplyWasSettled(
    c: Config, s: State, steps: seq<Step>, w: nat, p: ParticipantId, n: SequenceNumber)
  {
    exists k :: ReplySettledAt(c, s, steps, k, w, p, n)
  }

  lemma AnswerGoesOn(c: Config, s: State, step: Step, w: nat, p: ParticipantId, n: SequenceNumber)
    requires IsAnswering(s, w, p, n) && CanStep(c, s, step) && IsWorkerStep(step) && step.w == w
    requires ReplyInv(ProxyOf(s, p), s.workers[w].pc)
    ensures || SettlesReply(c, s, step, Apply(c, s, step), w, p, n)
            || (step.LookUp? && PcAfter(c, s, step).Replying? && PcAfter(c, s, step).number == n)
  {
    RepliesAfter(c, s, step);
    hide Apply, ProxyOf, Unread, Skips;
  }

  lemma AnswerOneStepOn(c: Config, s: State, step: Step, w: nat, p: ParticipantId, n: SequenceNumber)
    requires Inv(c, s) && IsAnswering(s, w, p, n) && CanStep(c, s, step)
    ensures SettlesReply(c, s, step, Apply(c, s, step), w, p, n) || IsAnswering(Apply(c, s, step), w, p, n)
  {
    if !(IsWorkerStep(step) && step.w == w) {
      hide Inv, Apply, CanStep, SettlesReply;
      BusyWorkerStays(c, s, step, w);
    } else {
      WorkerFacts(c, s, w);
      hide Inv, Apply, CanStep, ProxyOf, SettlesReply, PcAfter, ProxyAfter, Edited, Answers, ReplyInv;
      AnswerGoesOn(c, s, step, w, p, n);
      if step.LookUp? {
        WorkerShape(c, s, step);
      }
    }
  }

  lemma {:induction false} ReplyGoesOn(
    c: Config, s: State, steps: seq<Step>, w: nat, p: ParticipantId, n: SequenceNumber)
    requires Inv(c, s) && IsAnswering(s, w, p, n) && IsRun(c, s, steps)
    ensures || ReplyWasSettled(c, s, steps, w, p, n)
            || IsAnswering(RpcProtocol.After(c, s, steps), w, p, n)
    decreases |steps|
  {
    hide Inv, Apply, CanStep, SettlesReply;
    if steps != [] {
      var t := Apply(c, s, steps[0]);
      AnswerOneStepOn(c, s, steps[0], w, p, n);
      if SettlesReply(c, s, steps[0], t, w, p, n) {
        assert StateAt(c, s, steps, 1) == t;
        assert ReplySettledAt(c, s, steps, 0, w, p, n);
      } else {
        StepKeepsInv(c, s, steps[0]);
        ReplyGoesOn(c, t, steps[1..], w, p, n);
        if k: nat :| ReplySettledAt(c, t, steps[1..], k, w, p, n) {
          assert StateAt(c, s, steps, k + 1) == StateAt(c, t, steps[1..], k);
          assert StateAt(c, s, steps, k + 2) == StateAt(c, t, steps[1..], k + 1);
          assert ReplySettledAt(c, s, steps, k + 1, w, p, n);
        }
      }
    }
  }

  /**
   In every run, a reply to this proxy client that is taken is written to whom its request was registered for, or
   its write fails, or nobody is registered any more; unless its worker has not got so far yet.
   */
  lemma EveryReplyIsPassedOn(
    c: Config, steps: seq<Step>, k: nat, w: nat, p: ParticipantId, n: SequenceNumber)
    requires TakesAt(c, steps, k, w, ReplyReader(p), Reply(true, n))
    ensures var v := StateAt(c, Initial(), steps, k + 1);
            && IsAnswering(v, w, p, n) && IsRun(c, v, steps[k + 1..])
            && (|| ReplyWasSettled(c, v, steps[k + 1..], w, p, n)
                || IsAnswering(RpcProtocol.After(c, Initial(), steps), w, p, n))
  {
    TakeLeadsOn(c, steps, k, w, ReplyReader(p), Reply(true, n));
    hide *;
    WorkerAnswers(c, StateAt(c, Initial(), steps, k + 1), w, p, n);
    ReplyGoesOn(c, StateAt(c, Initial(), steps, k + 1), steps[k + 1..], w, p, n);
  }
}
