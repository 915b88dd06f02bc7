/** What every step of the RPC protocol keeps. */
module RpcInvariant {
  import opened DdsPipeTypes
  import opened ServiceRegistries
  import opened RpcProtocol

  predicate Runs(s: State, w: nat, r: ReaderId) {
    w in s.workers && s.workers[w].reader == r
  }

  /** A reader's flag is up exactly when one task of it, and no more, is queued or running. */
  ghost predicate OneConsumer(s: State, r: ReaderId) {
    && (forall v, w :: Runs(s, v, r) && Runs(s, w, r) ==> v == w)
    && (forall w :: Runs(s, w, r) ==> r in s.flags && s.queued[r] == 0)
    && s.queued[r] <= 1 && (s.queued[r] == 1 ==> r in s.flags)
    && (r in s.flags ==> s.queued[r] == 1 || exists w :: Runs(s, w, r))
  }

  ghost predicate FlagInv(s: State) {
    forall r :: OneConsumer(s, r)
  }

  predicate FitsReader(r: ReaderId, pc: Pc) {
    match pc
    case Checking => true
    case Taking => true
    case Forwarding(_, _) => r.RequestReader?
    case Locked(_, _, _) => r.RequestReader?
    case Written(_, _, _, _) => r.RequestReader?
    case Looking(_) => r.ReplyReader?
    case Replying(_, _) => r.ReplyReader?
    case Erasing(_) => r.ReplyReader?
  }

  predicate SampleFits(s: State, r: ReaderId, sample: Sample) {
    && (r.RequestReader? <==> sample.Request?)
    && (sample.Reply? && sample.mine ==> sample.number in ProxyOf(s, r.p).forwarded)
  }

  /** Readers hold samples of their kind; a worker that is about to take has something to take. */
  ghost predicate DataInv(s: State) {
    && (forall r, k :: 0 <= k < |Unread(s, r)| ==> SampleFits(s, r, Unread(s, r)[k]))
    && (forall w :: w in s.workers ==> FitsReader(s.workers[w].reader, s.workers[w].pc))
    && (forall w :: w in s.workers && s.workers[w].pc.Taking? ==> Unread(s, s.workers[w].reader) != [])
  }

  /** While the bridge is enabled, an open reader with unread data has its flag up or a callback in flight. */
  ghost predicate WakeInv(s: State) {
    forall r :: s.enabled && r in s.openReaders && Unread(s, r) != [] ==>
                  r in s.flags || r in s.callbacks || Announces(s, r)
  }

  ghost predicate ControllerInv(c: Config, s: State) {
    && s.openReaders <= Readers(c)
    && match s.controller
       case Idle => s.openReaders == if s.enabled then Readers(c) else {}
       case Enabling(todo) => s.enabled && Readers(c) <= s.openReaders + todo && todo <= Readers(c)
       case Announcing(r, todo) =>
         s.enabled && r in s.openReaders && Readers(c) <= s.openReaders + todo && todo <= Readers(c)
       case Draining => !s.enabled
       case Disabling(todo) => !s.enabled && s.openReaders <= todo && todo <= Readers(c)
  }

  predicate Holds(pc: Pc, q: ParticipantId) {
    (pc.Locked? || pc.Written?) && pc.q == q
  }

  /** The mutex of q's registry is held by exactly the worker between its lock and its unlock. */
  ghost predicate LockInv(s: State, q: ParticipantId) {
    var h := ProxyOf(s, q).holder;
    && (forall w :: w in s.workers && Holds(s.workers[w].pc, q) ==> h == HeldBy(w))
    && (h.HeldBy? ==> h.w in s.workers && Holds(s.workers[h.w].pc, q))
  }

  /** Request n of q has been written and its entry is about to be added. */
  predicate Pending(s: State, q: ParticipantId, n: SequenceNumber) {
    var h := ProxyOf(s, q).holder;
    && h.HeldBy? && h.w in s.workers && s.workers[h.w].pc.Written?
    && s.workers[h.w].pc.q == q && s.workers[h.w].pc.number == n
  }

  /** Numbers are used once, and an entry is either in the registry's history or about to be. */
  predicate SequenceInv(s: State, q: ParticipantId) {
    var x := ProxyOf(s, q);
    && (forall n :: n in x.forwarded ==> n < x.next && (n in x.added || Pending(s, q, n)))
    && (forall n :: n in x.added ==> n in x.forwarded)
  }

  predicate PendingInv(s: State, w: nat)
    requires w in s.workers
  {
    var pc := s.workers[w].pc;
    pc.Written? ==>
      var x := ProxyOf(s, pc.q);
      && pc.number in x.forwarded && x.forwarded[pc.number] == Entry(s.workers[w].reader.p, pc.identity)
      && pc.number !in x.added
  }

  /** The registry holds what was recorded. */
  predicate ContentsInv(x: Proxy) {
    && |x.registry| < MAX_ENTRIES
    && (forall n :: n in x.registry ==> n in x.added && n in x.forwarded && x.registry[n] == x.forwarded[n])
  }

  /** What is gone from the registry was answered or crowded out. */
  predicate AccountInv(x: Proxy) {
    && (forall n :: n in x.added ==> n in x.registry || n in x.replied || n in x.evicted)
    && (forall n :: n in x.evicted ==> n in x.added)
    && (forall n :: n in x.replied ==> n in x.added)
  }

  predicate RegistryInv(x: Proxy) {
    ContentsInv(x) && AccountInv(x)
  }

  /** An answered request leaves the registry before its reader looks anything else up. */
  ghost predicate AnsweredInv(s: State, q: ParticipantId) {
    forall n :: n in ProxyOf(s, q).replied && n in ProxyOf(s, q).registry ==>
                  exists w :: Runs(s, w, ReplyReader(q)) && s.workers[w].pc == Erasing(n)
  }

  predicate ReplyInv(x: Proxy, pc: Pc) {
    match pc
    case Looking(n) => n in x.forwarded
    case Replying(n, entry) => n in x.added && n in x.forwarded && entry == x.forwarded[n] && n !in x.replied
    case Erasing(n) => n in x.replied
    case _ => true
  }

  /** The reply went out through the recorded participant and identity. */
  predicate Recorded(s: State, k: nat)
    requires k < |s.replies|
  {
    var record := s.replies[k];
    var x := ProxyOf(s, record.p);
    && record.number in x.replied && record.number in x.forwarded
    && x.forwarded[record.number] == Entry(record.via, record.identity)
  }

  ghost predicate HasRecord(s: State, q: ParticipantId, n: SequenceNumber) {
    exists k :: 0 <= k < |s.replies| && s.replies[k].p == q && s.replies[k].number == n
  }

  predicate Distinct(replies: seq<ReplyRecord>) {
    forall j, k :: 0 <= j < k < |replies| ==> replies[j].p != replies[k].p || replies[j].number != replies[k].number
  }

  ghost predicate RecordInv(s: State) {
    && (forall k :: 0 <= k < |s.replies| ==> Recorded(s, k))
    && Distinct(s.replies)
    && (forall q, n :: n in ProxyOf(s, q).replied ==> HasRecord(s, q, n))
  }

  ghost predicate Inv(c: Config, s: State) {
    && FlagInv(s) && DataInv(s) && WakeInv(s) && ControllerInv(c, s)
    && (forall q :: LockInv(s, q) && SequenceInv(s, q) && RegistryInv(ProxyOf(s, q)) && AnsweredInv(s, q))
    && (forall w :: w in s.workers ==> PendingInv(s, w) && ReplyInv(ProxyOf(s, s.workers[w].reader.p), s.workers[w].pc))
    && RecordInv(s)
  }

  lemma InitialInv(c: Config)
    ensures Inv(c, Initial())
  {
  }

  // ----- Flags and tasks

  lemma SameConsumer(s: State, t: State, r: ReaderId)
    requires OneConsumer(s, r) && forall w :: Runs(t, w, r) <==> Runs(s, w, r)
    requires (r in t.flags <==> r in s.flags) && t.queued[r] == s.queued[r]
    ensures OneConsumer(t, r)
  {
  }

  lemma RaisedKeepsFlags(s: State, r: ReaderId)
    requires FlagInv(s)
    ensures FlagInv(Raised(s, r))
  {
    var t := Raised(s, r);
    forall u ensures OneConsumer(t, u) {
      assert OneConsumer(s, u);
      assert forall w :: Runs(t, w, u) <==> Runs(s, w, u);
      if u != r {
        SameConsumer(s, t, u);
      }
    }
  }

  /** A task leaves the queue and runs: still one. */
  lemma StartKeepsFlags(c: Config, s: State, w: nat, r: ReaderId)
    requires FlagInv(s) && CanStep(c, s, StartWorker(w, r))
    ensures FlagInv(ReaderStep(c, s, StartWorker(w, r)))
  {
    var t := ReaderStep(c, s, StartWorker(w, r));
    forall u ensures OneConsumer(t, u) {
      assert OneConsumer(s, u);
      if u == r {
        forall v ensures Runs(t, v, r) <==> v == w {
          assert !Runs(s, v, r);
        }
        assert Runs(t, w, r);
      } else {
        assert forall v :: Runs(t, v, u) <==> Runs(s, v, u);
        SameConsumer(s, t, u);
      }
    }
  }

  /** The only worker of a reader ends and takes the flag down. */
  lemma EndKeepsFlags(s: State, w: nat, t: State)
    requires FlagInv(s) && w in s.workers
    requires t == s.(flags := s.flags - {s.workers[w].reader}, workers := s.workers - {w})
    ensures FlagInv(t)
  {
    var r := s.workers[w].reader;
    assert Runs(s, w, r) && OneConsumer(s, r);
    forall u ensures OneConsumer(t, u) {
      assert OneConsumer(s, u);
      if u == r {
        forall v ensures !Runs(t, v, r) {
          assert Runs(s, v, r) ==> v == w;
        }
      } else {
        assert forall v :: Runs(t, v, u) <==> Runs(s, v, u);
        SameConsumer(s, t, u);
      }
    }
  }

  /** Nothing that counts consumers has changed. */
  lemma SameConsumers(s: State, t: State)
    requires FlagInv(s) && t.flags == s.flags && t.queued == s.queued
    requires forall w, r :: Runs(t, w, r) <==> Runs(s, w, r)
    ensures FlagInv(t)
  {
    forall r ensures OneConsumer(t, r) {
      assert OneConsumer(s, r);
      SameConsumer(s, t, r);
    }
  }

  lemma ReaderKeepsFlags(c: Config, s: State, step: Step)
    requires FlagInv(s) && CanStep(c, s, step) && IsReaderStep(step)
    ensures FlagInv(ReaderStep(c, s, step))
  {
    hide FlagInv, ProxyOf, Unread;
    if step.StartWorker? {
      StartKeepsFlags(c, s, step.w, step.r);
    } else if step.RaiseFlag? {
      var heard := s.(callbacks := s.callbacks - {step.r});
      SameConsumers(s, heard);
      RaisedKeepsFlags(heard, step.r);
    } else {
      SameConsumers(s, ReaderStep(c, s, step));
    }
  }

  lemma ControllerKeepsFlags(c: Config, s: State, step: Step)
    requires FlagInv(s) && CanStep(c, s, step) && IsControllerStep(step)
    ensures FlagInv(ControllerStep(c, s, step))
  {
    hide FlagInv, Readers;
    if step.AnnounceReader? {
      var announced := s.(controller := Enabling(s.controller.toEnable));
      SameConsumers(s, announced);
      RaisedKeepsFlags(announced, s.controller.r);
    } else {
      SameConsumers(s, ControllerStep(c, s, step));
    }
  }

  lemma WorkerKeepsFlags(c: Config, s: State, step: Step)
    requires FlagInv(s) && CanStep(c, s, step) && IsWorkerStep(step)
    ensures FlagInv(WorkerStep(c, s, step))
  {
    hide FlagInv, PcAfter, ProxyAfter, Edited, Answers, ProxyOf, Unread, Skips;
    if step.Check? && Ends(s, step) {
      EndKeepsFlags(s, step.w, WorkerStep(c, s, step));
    } else {
      SameConsumers(s, WorkerStep(c, s, step));
    }
  }

  lemma StepKeepsFlags(c: Config, s: State, step: Step)
    requires FlagInv(s) && CanStep(c, s, step)
    ensures FlagInv(Apply(c, s, step))
  {
    hide FlagInv, CanStep, WorkerStep, ReaderStep, ControllerStep;
    if IsWorkerStep(step) {
      WorkerKeepsFlags(c, s, step);
    } else if IsReaderStep(step) {
      ReaderKeepsFlags(c, s, step);
    } else {
      ControllerKeepsFlags(c, s, step);
    }
  }

  // ----- The shape of a step

  /** A step of transmit_ that does not end the task moves one worker and edits one proxy. */
  lemma WorkerShape(c: Config, s: State, step: Step)
    requires CanStep(c, s, step) && MovesWorker(s, step)
    ensures var t, w := Apply(c, s, step), step.w;
            && t == s.(workers := t.workers, unread := t.unread, proxies := t.proxies,
                    replies := s.replies + Answers(s, step))
            && t.workers == s.workers[w := Worker(s.workers[w].reader, PcAfter(c, s, step))]
            && (forall q :: ProxyOf(t, q) == if q == Edited(c, s, step) then ProxyAfter(c, s, step) else ProxyOf(s, q))
  {
    hide PcAfter, ProxyAfter, Edited, Answers, Skips;
  }

  predicate EndsTask(s: State, step: Step)
  {
    step.Check? && step.w in s.workers && Ends(s, step)
  }

  predicate MovesWorker(s: State, step: Step)
  {
    IsWorkerStep(step) && !EndsTask(s, step)
  }

  /** Every other step leaves the proxies alone but for opening a registry, and moves no worker. */
  ghost predicate NobodyMoved(s: State, t: State) {
    && t.replies == s.replies
    && (forall q :: ProxyOf(t, q) == ProxyOf(s, q).(open := ProxyOf(t, q).open))
    && (forall w :: w in t.workers && w in s.workers ==> t.workers[w] == s.workers[w])
    && (forall w :: w in t.workers && w !in s.workers ==> t.workers[w].pc == Checking)
    && (forall w :: w in s.workers && w !in t.workers ==> s.workers[w].pc == Checking)
  }

  lemma AloneMeansNobodyMoved(s: State, t: State)
    requires t.proxies == s.proxies && t.workers == s.workers && t.replies == s.replies
    ensures NobodyMoved(s, t)
  {
  }

  lemma StartMovesNobody(s: State, t: State, w: nat, r: ReaderId)
    requires w !in s.workers && t == s.(queued := t.queued, workers := s.workers[w := Worker(r, Checking)])
    ensures NobodyMoved(s, t)
  {
  }

  lemma OpeningMovesNobody(s: State, t: State, q: ParticipantId)
    requires t == s.(proxies := s.proxies[q := ProxyOf(s, q).(open := true)])
    ensures NobodyMoved(s, t)
  {
  }

  lemma ReaderShape(c: Config, s: State, step: Step)
    requires CanStep(c, s, step) && IsReaderStep(step)
    ensures NobodyMoved(s, ReaderStep(c, s, step))
  {
    hide Unread, ProxyOf, NobodyMoved;
    var t := ReaderStep(c, s, step);
    if step.OpenRegistry? {
      OpeningMovesNobody(s, t, step.q);
    } else if step.StartWorker? {
      StartMovesNobody(s, t, step.w, step.r);
    } else {
      AloneMeansNobodyMoved(s, t);
    }
  }

  lemma ControllerShape(c: Config, s: State, step: Step)
    requires CanStep(c, s, step) && IsControllerStep(step)
    ensures NobodyMoved(s, ControllerStep(c, s, step))
    ensures ControllerStep(c, s, step).unread == s.unread && ControllerStep(c, s, step).proxies == s.proxies
  {
    hide Readers, NobodyMoved;
    AloneMeansNobodyMoved(s, ControllerStep(c, s, step));
  }

  lemma OtherShape(c: Config, s: State, step: Step)
    requires CanStep(c, s, step) && !MovesWorker(s, step)
    ensures NobodyMoved(s, Apply(c, s, step))
  {
    if IsReaderStep(step) {
      ReaderShape(c, s, step);
    } else if IsControllerStep(step) {
      ControllerShape(c, s, step);
    }
    hide ReaderStep, ControllerStep;
  }

  lemma UnreadAfterReader(c: Config, s: State, step: Step, r: ReaderId)
    requires CanStep(c, s, step) && IsReaderStep(step)
    ensures Unread(ReaderStep(c, s, step), r)
         == if step.Arrive? && r == step.r then Unread(s, r) + [step.sample] else Unread(s, r)
  {
    hide ProxyOf;
  }

  lemma UnreadAfterWorker(c: Config, s: State, step: Step, r: ReaderId)
    requires CanStep(c, s, step) && IsWorkerStep(step)
    ensures Unread(WorkerStep(c, s, step), r)
         == if step.Take? && Gets(s, step) && r == s.workers[step.w].reader then Unread(s, r)[1..] else Unread(s, r)
  {
    hide PcAfter, ProxyAfter, Edited, Answers, Skips, ProxyOf;
  }

  lemma UnreadAfter(c: Config, s: State, step: Step, r: ReaderId)
    requires CanStep(c, s, step)
    ensures var t := Apply(c, s, step);
            Unread(t, r) == if step.Arrive? && r == step.r then Unread(s, r) + [step.sample]
                            else if step.Take? && Gets(s, step) && r == s.workers[step.w].reader then Unread(s, r)[1..]
                            else Unread(s, r)
  {
    if IsReaderStep(step) {
      UnreadAfterReader(c, s, step, r);
    } else if IsControllerStep(step) {
      ControllerShape(c, s, step);
    } else {
      UnreadAfterWorker(c, s, step, r);
    }
    hide ReaderStep, ControllerStep, WorkerStep, NobodyMoved, Skips, ProxyOf;
  }

  // ----- Data, readers and controller

  lemma ReaderKeepsWake(c: Config, s: State, step: Step)
    requires WakeInv(s) && CanStep(c, s, step) && IsReaderStep(step)
    ensures WakeInv(ReaderStep(c, s, step))
  {
    hide CanStep, ProxyOf;
  }

  lemma ControllerKeepsWake(c: Config, s: State, step: Step)
    requires WakeInv(s) && ControllerInv(c, s) && CanStep(c, s, step) && IsControllerStep(step)
    ensures WakeInv(ControllerStep(c, s, step))
  {
    hide Readers, Unread;
    ControllerShape(c, s, step);
    var t := ControllerStep(c, s, step);
    assert forall r :: Unread(t, r) == Unread(s, r) by {
      SameUnread(s, t);
    }
    hide NobodyMoved;
  }

  lemma SameUnread(s: State, t: State)
    requires t.unread == s.unread
    ensures forall r :: Unread(t, r) == Unread(s, r)
  {
  }

  /** The check that takes a flag down finds nothing to read, and no callback can be under way. */
  lemma WorkerKeepsWake(c: Config, s: State, step: Step)
    requires WakeInv(s) && CanStep(c, s, step) && IsWorkerStep(step)
    ensures WakeInv(WorkerStep(c, s, step))
  {
    hide Skips, ProxyOf, PcAfter, ProxyAfter, Edited, Answers;
  }

  lemma StepKeepsWake(c: Config, s: State, step: Step)
    requires WakeInv(s) && ControllerInv(c, s) && CanStep(c, s, step)
    ensures WakeInv(Apply(c, s, step))
  {
    hide WakeInv, ControllerInv, CanStep, WorkerStep, ReaderStep, ControllerStep;
    if IsWorkerStep(step) {
      WorkerKeepsWake(c, s, step);
    } else if IsReaderStep(step) {
      ReaderKeepsWake(c, s, step);
    } else {
      ControllerKeepsWake(c, s, step);
    }
  }

  lemma ReaderKeepsController(c: Config, s: State, step: Step)
    requires CanStep(c, s, step) && IsReaderStep(step)
    ensures var t := ReaderStep(c, s, step);
            t.controller == s.controller && t.enabled == s.enabled && t.openReaders == s.openReaders
  {
    hide CanStep, ProxyOf, Unread;
  }

  lemma ControllerKeepsController(c: Config, s: State, step: Step)
    requires ControllerInv(c, s) && CanStep(c, s, step) && IsControllerStep(step)
    ensures ControllerInv(c, ControllerStep(c, s, step))
  {
    hide Readers;
  }

  lemma StepKeepsController(c: Config, s: State, step: Step)
    requires ControllerInv(c, s) && CanStep(c, s, step)
    ensures ControllerInv(c, Apply(c, s, step))
  {
    hide CanStep, WorkerStep, ReaderStep, ControllerStep, Readers;
    if IsWorkerStep(step) {
      WorkerKeepsController(c, s, step);
    } else if IsReaderStep(step) {
      ReaderKeepsController(c, s, step);
    } else {
      ControllerKeepsController(c, s, step);
    }
  }

  lemma WorkerKeepsController(c: Config, s: State, step: Step)
    requires CanStep(c, s, step) && IsWorkerStep(step)
    ensures var t := WorkerStep(c, s, step);
            t.controller == s.controller && t.enabled == s.enabled && t.openReaders == s.openReaders
  {
    hide PcAfter, ProxyAfter, Edited, Answers, Skips, ProxyOf, Unread;
  }

  /** No step takes a request back. */
  lemma ForwardedGrows(c: Config, s: State, step: Step, q: ParticipantId)
    requires CanStep(c, s, step)
    ensures forall n :: n in ProxyOf(s, q).forwarded ==> n in ProxyOf(Apply(c, s, step), q).forwarded
  {
    if MovesWorker(s, step) {
      WorkerShape(c, s, step);
    } else {
      OtherShape(c, s, step);
    }
    hide Apply, Skips, Added;
  }

  lemma StepKeepsSamples(c: Config, s: State, step: Step, r: ReaderId)
    requires DataInv(s) && CanStep(c, s, step)
    ensures var t := Apply(c, s, step);
            forall k :: 0 <= k < |Unread(t, r)| ==> SampleFits(t, r, Unread(t, r)[k])
  {
    ForwardedGrows(c, s, step, r.p);
    UnreadAfter(c, s, step, r);
    hide Apply, Skips, ProxyOf, Unread;
  }

  lemma StepKeepsData(c: Config, s: State, step: Step)
    requires FlagInv(s) && DataInv(s) && CanStep(c, s, step)
    ensures DataInv(Apply(c, s, step))
  {
    var t := Apply(c, s, step);
    forall r, k | 0 <= k < |Unread(t, r)| ensures SampleFits(t, r, Unread(t, r)[k]) {
      StepKeepsSamples(c, s, step, r);
    }
    hide Skips, ProxyOf, SampleFits, Apply;
    forall w | w in t.workers
      ensures FitsReader(t.workers[w].reader, t.workers[w].pc)
      ensures t.workers[w].pc.Taking? ==> Unread(t, t.workers[w].reader) != []
    {
      StepKeepsWorkerData(c, s, step, w);
    }
  }

  lemma StepKeepsWorkerData(c: Config, s: State, step: Step, w: nat)
    requires FlagInv(s) && DataInv(s) && CanStep(c, s, step) && w in Apply(c, s, step).workers
    ensures var t := Apply(c, s, step);
            && FitsReader(t.workers[w].reader, t.workers[w].pc)
            && (t.workers[w].pc.Taking? ==> Unread(t, t.workers[w].reader) != [])
  {
    var t := Apply(c, s, step);
    if !MovesWorker(s, step) {
      OtherShape(c, s, step);
      if w in s.workers {
        UnreadAfter(c, s, step, s.workers[w].reader);
      }
    } else {
      WorkerShape(c, s, step);
      UnreadAfter(c, s, step, s.workers[w].reader);
      if w == step.w {
        NextPcFits(c, s, step);
      } else {
        var r := s.workers[step.w].reader;
        assert OneConsumer(s, r) && Runs(s, step.w, r) && (s.workers[w].reader == r ==> Runs(s, w, r));
      }
    }
    hide Apply, Skips, ProxyOf, ProxyAfter, PcAfter, Edited, Unread, FlagInv, OneConsumer, FitsReader, SampleFits;
  }

  lemma NextPcFits(c: Config, s: State, step: Step)
    requires DataInv(s) && CanStep(c, s, step) && MovesWorker(s, step)
    ensures var r, next := s.workers[step.w].reader, PcAfter(c, s, step);
            FitsReader(r, next) && (next.Taking? ==> step.Check? && Unread(s, r) != [])
  {
    var r := s.workers[step.w].reader;
    assert FitsReader(r, s.workers[step.w].pc);
    if step.Take? && Unread(s, r) != [] {
      assert SampleFits(s, r, Unread(s, r)[0]);
    }
    hide DataInv, Skips, ProxyOf, Unread, Added;
  }

  // ----- Registries

  lemma OthersKeepLocks(s: State, t: State, q: ParticipantId)
    requires LockInv(s, q) && NobodyMoved(s, t)
    ensures LockInv(t, q)
  {
    hide ProxyOf;
  }

  lemma LockMoves(s: State, t: State, q: ParticipantId, w: nat, next: Pc)
    requires LockInv(s, q) && w in s.workers && t.workers == s.workers[w := Worker(s.workers[w].reader, next)]
    requires LockMove(s.workers[w].pc, next, ProxyOf(s, q).holder, ProxyOf(t, q).holder, w, q)
    ensures LockInv(t, q)
  {
    hide ProxyOf;
  }

  lemma MoveKeepsLocks(c: Config, s: State, step: Step, q: ParticipantId)
    requires LockInv(s, q) && CanStep(c, s, step) && MovesWorker(s, step)
    ensures LockInv(Apply(c, s, step), q)
  {
    hide LockInv, LockMove, Apply, Skips, ProxyOf, Unread, PcAfter, ProxyAfter, Edited, Answers;
    WorkerShape(c, s, step);
    LockStepShape(c, s, step, q);
    LockMoves(s, Apply(c, s, step), q, step.w, PcAfter(c, s, step));
  }

  /** The mutex of q: untouched, taken by w, or given back by w. */
  predicate LockMove(pc: Pc, next: Pc, held: Holder, holds: Holder, w: nat, q: ParticipantId) {
    || (holds == held && Holds(next, q) == Holds(pc, q))
    || (held.Nobody? && holds == HeldBy(w) && Holds(next, q))
    || (Holds(pc, q) && holds.Nobody? && !Holds(next, q))
  }

  lemma LockStepShape(c: Config, s: State, step: Step, q: ParticipantId)
    requires CanStep(c, s, step) && MovesWorker(s, step)
    ensures LockMove(s.workers[step.w].pc, PcAfter(c, s, step), ProxyOf(s, q).holder,
                     (if q == Edited(c, s, step) then ProxyAfter(c, s, step) else ProxyOf(s, q)).holder, step.w, q)
  {
    hide Skips, ProxyOf, Unread, Added;
  }

  // ----- Correlation

  /** What happens to the proxy of q when a worker of reader r goes from pc to next. */
  predicate ProxyMove(r: ReaderId, pc: Pc, next: Pc, x: Proxy, y: Proxy, w: nat, q: ParticipantId) {
    || (y == x && !Holds(pc, q) && !Holds(next, q) && (r.p == q ==> !pc.Erasing? && !next.Erasing?))
    || (x.holder.Nobody? && y == x.(holder := HeldBy(w)) && pc.Forwarding? && next.Locked? && next.q == q)
    || (pc.Locked? && pc.q == q && next.Forwarding? && y == x.(holder := Nobody))
    || (pc.Locked? && pc.q == q && next == Written(pc.identity, pc.todo, q, x.next)
        && y == x.(next := x.next + 1, forwarded := x.forwarded[x.next := Entry(r.p, pc.identity)]))
    || (pc.Written? && pc.q == q && next.Forwarding? && EntryAdded(r, pc, x, y))
    || (pc.Replying? && r.p == q && next == Erasing(pc.number) && y == x.(replied := x.replied + {pc.number}))
    || (pc.Erasing? && r.p == q && next == Checking && y == x.(registry := x.registry - {pc.number}))
  }

  predicate EntryAdded(r: ReaderId, pc: Pc, x: Proxy, y: Proxy)
    requires pc.Written?
  {
    var registry := Added(x.registry, pc.number, Entry(r.p, pc.identity));
    y == x.(holder := Nobody, registry := registry, added := x.added + {pc.number},
            evicted := x.evicted + (x.registry.Keys + {pc.number} - registry.Keys))
  }

  lemma ProxyStepShape(c: Config, s: State, step: Step, q: ParticipantId)
    requires CanStep(c, s, step) && MovesWorker(s, step)
    ensures ProxyMove(s.workers[step.w].reader, s.workers[step.w].pc, PcAfter(c, s, step), ProxyOf(s, q),
                      if q == Edited(c, s, step) then ProxyAfter(c, s, step) else ProxyOf(s, q), step.w, q)
  {
    hide Skips, ProxyOf, Unread, Added;
  }

  /** Worker w of s has moved to next, and the proxy of q moved with it. */
  ghost predicate Moved(s: State, t: State, w: nat, next: Pc, q: ParticipantId) {
    && w in s.workers && t.workers == s.workers[w := Worker(s.workers[w].reader, next)]
    && ProxyMove(s.workers[w].reader, s.workers[w].pc, next, ProxyOf(s, q), ProxyOf(t, q), w, q)
  }

  lemma MovedBy(c: Config, s: State, step: Step, q: ParticipantId)
    requires CanStep(c, s, step) && MovesWorker(s, step)
    ensures Moved(s, Apply(c, s, step), step.w, PcAfter(c, s, step), q)
  {
    hide Apply, Skips, ProxyOf, Unread, PcAfter, ProxyAfter, Edited, Answers, ProxyMove;
    WorkerShape(c, s, step);
    ProxyStepShape(c, s, step, q);
  }

  lemma MoveKeepsSequence(s: State, t: State, w: nat, next: Pc, q: ParticipantId)
    requires Moved(s, t, w, next, q) && LockInv(s, q) && SequenceInv(s, q) && PendingInv(s, w)
    ensures SequenceInv(t, q)
  {
    hide ProxyOf, Added;
  }

  lemma AdditionKeepsRegistry(r: ReaderId, pc: Pc, x: Proxy, y: Proxy)
    requires RegistryInv(x) && pc.Written? && EntryAdded(r, pc, x, y)
    requires pc.number !in x.added && pc.number in x.forwarded && x.forwarded[pc.number] == Entry(r.p, pc.identity)
    ensures RegistryInv(y)
  {
    AddedSize(x.registry, pc.number, Entry(r.p, pc.identity));
    AddedContents(x.registry, pc.number, Entry(r.p, pc.identity));
    AdditionAccounts(r, pc, x, y);
    hide Added, AccountInv, ContentsInv;
    AdditionContents(x, y, pc.number);
  }

  lemma AdditionContents(x: Proxy, y: Proxy, n: SequenceNumber)
    requires ContentsInv(x) && n in x.forwarded && y.added == x.added + {n} && y.forwarded == x.forwarded
    requires |y.registry| < MAX_ENTRIES
    requires forall k :: k in y.registry ==>
               if k == n then y.registry[k] == x.forwarded[n] else k in x.registry && y.registry[k] == x.registry[k]
    ensures ContentsInv(y)
  {
  }

  lemma AdditionAccounts(r: ReaderId, pc: Pc, x: Proxy, y: Proxy)
    requires RegistryInv(x) && pc.Written? && EntryAdded(r, pc, x, y)
    ensures AccountInv(y)
  {
    assert forall k :: k in x.registry ==> k in x.added;
    hide Added, ContentsInv;
  }

  lemma WriteKeepsRegistry(x: Proxy, y: Proxy, entry: Entry)
    requires RegistryInv(x) && x.next !in x.forwarded
    requires y == x.(next := x.next + 1, forwarded := x.forwarded[x.next := entry])
    ensures RegistryInv(y)
  {
  }

  lemma ReplyKeepsRegistry(x: Proxy, y: Proxy, n: SequenceNumber)
    requires RegistryInv(x) && n in x.added && y == x.(replied := x.replied + {n})
    ensures RegistryInv(y)
  {
  }

  lemma EraseKeepsRegistry(x: Proxy, y: Proxy, n: SequenceNumber)
    requires RegistryInv(x) && n in x.replied && y == x.(registry := x.registry - {n})
    ensures RegistryInv(y)
  {
    RemovedSize(x.registry, n);
  }

  lemma MoveKeepsRegistry(s: State, t: State, w: nat, next: Pc, q: ParticipantId)
    requires Moved(s, t, w, next, q) && SequenceInv(s, q) && RegistryInv(ProxyOf(s, q)) && PendingInv(s, w)
    requires ReplyInv(ProxyOf(s, s.workers[w].reader.p), s.workers[w].pc)
    ensures RegistryInv(ProxyOf(t, q))
  {
    var x, y, r, pc := ProxyOf(s, q), ProxyOf(t, q), s.workers[w].reader, s.workers[w].pc;
    var nextIsNew := x.next !in x.forwarded;
    hide ProxyOf, EntryAdded, RegistryInv, SequenceInv;
    if pc.Written? && pc.q == q {
      AdditionKeepsRegistry(r, pc, x, y);
    } else if pc.Erasing? && r.p == q {
      EraseKeepsRegistry(x, y, pc.number);
    } else if pc.Replying? && r.p == q && next.Erasing? {
      ReplyKeepsRegistry(x, y, pc.number);
    } else if pc.Locked? && pc.q == q && next.Written? {
      WriteKeepsRegistry(x, y, Entry(r.p, pc.identity));
    } else {
      SameRegistry(x, y);
    }
  }

  lemma SameRegistry(x: Proxy, y: Proxy)
    requires RegistryInv(x) && y == x.(holder := y.holder)
    ensures RegistryInv(y)
  {
  }

  /** An answered request that is still in the registry was so before, or has just been answered. */
  lemma AnsweredSources(r: ReaderId, pc: Pc, next: Pc, x: Proxy, y: Proxy, w: nat, q: ParticipantId, n: SequenceNumber)
    requires ProxyMove(r, pc, next, x, y, w, q) && n in y.replied && n in y.registry
    requires pc.Written? && pc.q == q ==> pc.number !in x.replied && pc.number !in x.registry
    requires FitsReader(r, pc)
    ensures || (n in x.replied && n in x.registry && !(r == ReplyReader(q) && pc == Erasing(n)))
            || (r == ReplyReader(q) && pc.Replying? && next == Erasing(n))
  {
    if pc.Written? && pc.q == q && EntryAdded(r, pc, x, y) {
      AddedContents(x.registry, pc.number, Entry(r.p, pc.identity));
    }
    hide Added;
  }

  lemma MoveKeepsAnswered(s: State, t: State, w: nat, next: Pc, q: ParticipantId)
    requires Moved(s, t, w, next, q) && RegistryInv(ProxyOf(s, q)) && AnsweredInv(s, q) && PendingInv(s, w)
    requires OneConsumer(s, ReplyReader(q)) && FitsReader(s.workers[w].reader, s.workers[w].pc)
    ensures AnsweredInv(t, q)
  {
    var x, y, r, pc := ProxyOf(s, q), ProxyOf(t, q), s.workers[w].reader, s.workers[w].pc;
    assert pc.Written? && pc.q == q ==> pc.number !in x.replied && pc.number !in x.registry;
    hide ProxyOf, ProxyMove, RegistryInv, PendingInv;
    forall n | n in y.replied && n in y.registry
      ensures exists v :: Runs(t, v, ReplyReader(q)) && t.workers[v].pc == Erasing(n)
    {
      AnsweredSources(r, pc, next, x, y, w, q, n);
      if r == ReplyReader(q) && pc.Replying? && next == Erasing(n) {
        assert Runs(t, w, ReplyReader(q)) && t.workers[w].pc == Erasing(n);
      } else {
        var v :| Runs(s, v, ReplyReader(q)) && s.workers[v].pc == Erasing(n);
        assert v != w && Runs(t, v, ReplyReader(q)) && t.workers[v].pc == Erasing(n);
      }
    }
  }

  // ----- Workers

  /** What a proxy knows of its requests only grows. */
  lemma ProxyGrows(r: ReaderId, pc: Pc, next: Pc, x: Proxy, y: Proxy, w: nat, q: ParticipantId)
    requires ProxyMove(r, pc, next, x, y, w, q) && x.next !in x.forwarded
    ensures forall n :: n in x.forwarded ==> n in y.forwarded && y.forwarded[n] == x.forwarded[n]
    ensures x.added <= y.added && x.replied <= y.replied
    ensures forall n :: n in y.added && n !in x.added ==> pc.Written? && pc.q == q && pc.number == n
    ensures forall n :: n in y.replied && n !in x.replied ==> r.p == q && pc.Replying? && pc.number == n
  {
    hide Added;
  }

  lemma MoveKeepsOthersPending(s: State, t: State, w: nat, next: Pc, v: nat)
    requires v in s.workers && v != w && s.workers[v].pc.Written?
    requires var q := s.workers[v].pc.q; Moved(s, t, w, next, q) && LockInv(s, q) && SequenceInv(s, q)
    requires PendingInv(s, v)
    ensures PendingInv(t, v)
  {
    var q := s.workers[v].pc.q;
    ProxyGrows(s.workers[w].reader, s.workers[w].pc, next, ProxyOf(s, q), ProxyOf(t, q), w, q);
    hide ProxyOf, ProxyMove;
  }

  lemma MoveKeepsOwnPending(s: State, t: State, w: nat, next: Pc)
    requires next.Written? ==> Moved(s, t, w, next, next.q) && SequenceInv(s, next.q)
    requires w in s.workers && t.workers == s.workers[w := Worker(s.workers[w].reader, next)]
    ensures PendingInv(t, w)
  {
    hide ProxyOf, Added;
  }

  lemma GrowthKeepsReply(x: Proxy, y: Proxy, pc: Pc)
    requires ReplyInv(x, pc)
    requires forall n :: n in x.forwarded ==> n in y.forwarded && y.forwarded[n] == x.forwarded[n]
    requires x.added <= y.added && x.replied <= y.replied && (pc.Replying? ==> pc.number !in y.replied)
    ensures ReplyInv(y, pc)
  {
  }

  lemma MoveKeepsOthersReply(s: State, t: State, w: nat, next: Pc, v: nat, q: ParticipantId)
    requires v in s.workers && v != w && w in s.workers && s.workers[v].reader == ReplyReader(q)
    requires Moved(s, t, w, next, q) && SequenceInv(s, q) && OneConsumer(s, ReplyReader(q))
    requires ReplyInv(ProxyOf(s, q), s.workers[v].pc) && FitsReader(s.workers[w].reader, s.workers[w].pc)
    ensures ReplyInv(ProxyOf(t, q), s.workers[v].pc)
  {
    var x, y, r, pc := ProxyOf(s, q), ProxyOf(t, q), s.workers[w].reader, s.workers[w].pc;
    assert Runs(s, v, ReplyReader(q)) && !Runs(s, w, ReplyReader(q));
    hide ProxyOf, ProxyMove, OneConsumer;
    ProxyGrows(r, pc, next, x, y, w, q);
    GrowthKeepsReply(x, y, s.workers[v].pc);
  }

  /** What the invariant says about one worker. */
  lemma WorkerFacts(c: Config, s: State, w: nat)
    requires Inv(c, s) && w in s.workers
    ensures PendingInv(s, w) && ReplyInv(ProxyOf(s, s.workers[w].reader.p), s.workers[w].pc)
    ensures FitsReader(s.workers[w].reader, s.workers[w].pc)
  {
    hide PendingInv, ReplyInv, ProxyOf, FitsReader, FlagInv, WakeInv, ControllerInv, RecordInv;
    hide LockInv, SequenceInv, RegistryInv, AnsweredInv;
  }

  /** What it says about the proxy of q. */
  lemma ProxyFacts(c: Config, s: State, q: ParticipantId)
    requires Inv(c, s)
    ensures LockInv(s, q) && SequenceInv(s, q) && RegistryInv(ProxyOf(s, q)) && AnsweredInv(s, q)
    ensures OneConsumer(s, ReplyReader(q))
  {
    hide PendingInv, ReplyInv, ProxyOf, DataInv, WakeInv, ControllerInv, RecordInv, OneConsumer;
    hide LockInv, SequenceInv, RegistryInv, AnsweredInv;
  }

  lemma TakenReplyIsKnown(c: Config, s: State, step: Step)
    requires DataInv(s) && CanStep(c, s, step) && step.Take?
    ensures ReplyInv(ProxyOf(s, s.workers[step.w].reader.p), PcAfter(c, s, step))
  {
    var r := s.workers[step.w].reader;
    if Gets(s, step) {
      assert SampleFits(s, r, Unread(s, r)[0]);
    }
    hide DataInv, ProxyOf, Unread;
  }

  lemma LookedUpIsRecorded(c: Config, s: State, step: Step)
    requires CanStep(c, s, step) && step.LookUp? && FitsReader(s.workers[step.w].reader, s.workers[step.w].pc)
    requires var q := s.workers[step.w].reader.p;
             AnsweredInv(s, q) && RegistryInv(ProxyOf(s, q)) && OneConsumer(s, ReplyReader(q))
    ensures ReplyInv(ProxyOf(s, s.workers[step.w].reader.p), PcAfter(c, s, step))
  {
    var r, n := s.workers[step.w].reader, s.workers[step.w].pc.number;
    FoundIsUnanswered(s, step.w, r.p, n);
    hide AnsweredInv, RegistryInv, OneConsumer, ProxyOf;
  }

  lemma OthersStayRecorded(c: Config, s: State, step: Step)
    requires CanStep(c, s, step) && MovesWorker(s, step) && !step.Take? && !step.LookUp?
    requires ReplyInv(ProxyOf(s, s.workers[step.w].reader.p), s.workers[step.w].pc)
    requires FitsReader(s.workers[step.w].reader, s.workers[step.w].pc)
    ensures var q := s.workers[step.w].reader.p;
            ReplyInv(if q == Edited(c, s, step) then ProxyAfter(c, s, step) else ProxyOf(s, q), PcAfter(c, s, step))
  {
    hide ProxyOf, Unread, Skips, Added;
  }

  lemma NothingEdited(c: Config, s: State, step: Step)
    requires CanStep(c, s, step) && IsWorkerStep(step)
    ensures step.Take? || step.LookUp? ==> ProxyAfter(c, s, step) == ProxyOf(s, s.workers[step.w].reader.p)
  {
    hide ProxyOf, Skips, Unread, Added;
  }

  /** The moving worker itself: what it takes, finds or writes is as recorded. */
  lemma StepKeepsOwnReply(c: Config, s: State, step: Step)
    requires Inv(c, s) && CanStep(c, s, step) && MovesWorker(s, step)
    ensures var t := Apply(c, s, step);
            ReplyInv(ProxyOf(t, t.workers[step.w].reader.p), t.workers[step.w].pc)
  {
    hide Apply, PcAfter, Edited, Skips, ProxyOf, Unread, FlagInv, DataInv, WakeInv, ControllerInv, RecordInv,
      LockInv, SequenceInv, RegistryInv, AnsweredInv, PendingInv, ReplyInv;
    var w := step.w;
    var q := s.workers[w].reader.p;
    assert DataInv(s);
    WorkerShape(c, s, step);
    WorkerFacts(c, s, w);
    ProxyFacts(c, s, q);
    NothingEdited(c, s, step);
    hide *;
    if step.Take? {
      TakenReplyIsKnown(c, s, step);
    } else if step.LookUp? {
      LookedUpIsRecorded(c, s, step);
    } else {
      OthersStayRecorded(c, s, step);
    }
  }

  /** What the registry still holds when the only reader of replies looks it up has not been answered. */
  lemma FoundIsUnanswered(s: State, w: nat, q: ParticipantId, n: SequenceNumber)
    requires w in s.workers && s.workers[w] == Worker(ReplyReader(q), Looking(n))
    requires AnsweredInv(s, q) && RegistryInv(ProxyOf(s, q)) && OneConsumer(s, ReplyReader(q))
    ensures n in ProxyOf(s, q).registry ==>
              ReplyInv(ProxyOf(s, q), Replying(n, ProxyOf(s, q).registry[n]))
  {
    assert Runs(s, w, ReplyReader(q));
  }

  // ----- Replies written

  lemma StepGrowsProxy(c: Config, s: State, step: Step, q: ParticipantId)
    requires SequenceInv(s, q) && CanStep(c, s, step)
    ensures var x, y := ProxyOf(s, q), ProxyOf(Apply(c, s, step), q);
            && (forall n :: n in x.forwarded ==> n in y.forwarded && y.forwarded[n] == x.forwarded[n])
            && x.replied <= y.replied
  {
    if MovesWorker(s, step) {
      MovedBy(c, s, step, q);
      ProxyGrows(s.workers[step.w].reader, s.workers[step.w].pc, PcAfter(c, s, step),
                 ProxyOf(s, q), ProxyOf(Apply(c, s, step), q), step.w, q);
    } else {
      OtherShape(c, s, step);
    }
    hide ProxyOf, Apply, ProxyMove, PcAfter;
  }

  lemma OldRecordStays(c: Config, s: State, step: Step, k: nat)
    requires k < |s.replies| && Recorded(s, k) && SequenceInv(s, s.replies[k].p) && CanStep(c, s, step)
    requires |Apply(c, s, step).replies| > k && Apply(c, s, step).replies[k] == s.replies[k]
    ensures Recorded(Apply(c, s, step), k)
  {
    StepGrowsProxy(c, s, step, s.replies[k].p);
    hide ProxyOf, Apply;
  }

  lemma RepliesAfter(c: Config, s: State, step: Step)
    requires CanStep(c, s, step)
    ensures Apply(c, s, step).replies == s.replies + Answers(s, step)
  {
    if MovesWorker(s, step) {
      WorkerShape(c, s, step);
    } else {
      OtherShape(c, s, step);
    }
    hide Apply;
  }

  /** The one step that writes a reply records it as the registry had it. */
  ghost predicate Writes(s: State, t: State, step: Step)
    requires step.WriteReply? && step.w in s.workers && s.workers[step.w].pc.Replying?
  {
    var pc, q := s.workers[step.w].pc, s.workers[step.w].reader.p;
    && t.replies == s.replies + [ReplyRecord(q, pc.number, pc.entry.participant, pc.entry.identity)]
    && Recorded(t, |s.replies|)
    && pc.number !in ProxyOf(s, q).replied
    && ProxyOf(t, q).replied == ProxyOf(s, q).replied + {pc.number}
    && forall u :: u != q ==> ProxyOf(t, u) == ProxyOf(s, u)
  }

  lemma ReplyGoesToItsProxy(c: Config, s: State, step: Step)
    requires CanStep(c, s, step) && step.WriteReply? && step.ok
    ensures var x := ProxyOf(s, s.workers[step.w].reader.p);
            ProxyAfter(c, s, step) == x.(replied := x.replied + {s.workers[step.w].pc.number})
    ensures Edited(c, s, step) == s.workers[step.w].reader.p
  {
    hide ProxyOf;
  }

  lemma NewRecord(c: Config, s: State, step: Step)
    requires Inv(c, s) && CanStep(c, s, step) && step.WriteReply? && step.ok
    ensures Writes(s, Apply(c, s, step), step)
  {
    hide Inv, Apply, ProxyOf, Unread, Skips, ProxyAfter, Edited, PendingInv, FitsReader;
    RepliesAfter(c, s, step);
    WorkerShape(c, s, step);
    ReplyGoesToItsProxy(c, s, step);
    WorkerFacts(c, s, step.w);
  }

  lemma RecordFacts(c: Config, s: State)
    requires Inv(c, s)
    ensures RecordInv(s) && forall q :: SequenceInv(s, q)
  {
    hide RecordInv, FlagInv, DataInv, WakeInv, ControllerInv, SequenceInv, PendingInv, ReplyInv, LockInv, ProxyOf,
      RegistryInv, AnsweredInv;
  }

  lemma StepKeepsRecorded(c: Config, s: State, step: Step, k: nat)
    requires Inv(c, s) && CanStep(c, s, step) && k < |Apply(c, s, step).replies|
    ensures Recorded(Apply(c, s, step), k)
  {
    hide Apply, ProxyOf, Inv, SequenceInv, Recorded;
    RepliesAfter(c, s, step);
    RecordFacts(c, s);
    if k == |s.replies| {
      NewRecord(c, s, step);
    } else {
      OldRecordStays(c, s, step, k);
    }
  }

  lemma StepKeepsHasRecord(c: Config, s: State, step: Step, q: ParticipantId, n: SequenceNumber)
    requires Inv(c, s) && CanStep(c, s, step) && n in ProxyOf(Apply(c, s, step), q).replied
    ensures HasRecord(Apply(c, s, step), q, n)
  {
    hide Apply, ProxyOf, Inv, Recorded, SequenceInv;
    var t := Apply(c, s, step);
    RepliesAfter(c, s, step);
    RecordFacts(c, s);
    if n in ProxyOf(s, q).replied {
      assert HasRecord(s, q, n);
      var k :| 0 <= k < |s.replies| && s.replies[k].p == q && s.replies[k].number == n;
      assert t.replies[k] == s.replies[k];
    } else if step.WriteReply? && step.ok {
      NewRecord(c, s, step);
      assert t.replies[|s.replies|].p == q && t.replies[|s.replies|].number == n;
    } else {
      RepliedStays(c, s, step);
    }
  }

  lemma StepKeepsRecords(c: Config, s: State, step: Step)
    requires Inv(c, s) && CanStep(c, s, step)
    ensures RecordInv(Apply(c, s, step))
  {
    hide Inv, Apply, ProxyOf, CanStep, Recorded, HasRecord, Distinct;
    var t := Apply(c, s, step);
    forall k | 0 <= k < |t.replies| ensures Recorded(t, k) {
      StepKeepsRecorded(c, s, step, k);
    }
    forall q, n | n in ProxyOf(t, q).replied ensures HasRecord(t, q, n) {
      StepKeepsHasRecord(c, s, step, q, n);
    }
    RecordsAreDistinct(c, s, step);
  }

  lemma RepliedStays(c: Config, s: State, step: Step)
    requires CanStep(c, s, step) && !(step.WriteReply? && step.ok)
    ensures forall q :: ProxyOf(Apply(c, s, step), q).replied == ProxyOf(s, q).replied
    ensures Answers(s, step) == []
  {
    if MovesWorker(s, step) {
      WorkerShape(c, s, step);
    } else {
      OtherShape(c, s, step);
    }
    hide Apply, ProxyOf, Skips, Added;
  }

  lemma RecordsAreDistinct(c: Config, s: State, step: Step)
    requires Inv(c, s) && CanStep(c, s, step)
    ensures Distinct(Apply(c, s, step).replies)
  {
    hide Apply, ProxyOf, Inv, SequenceInv;
    RepliesAfter(c, s, step);
    RecordFacts(c, s);
    if step.WriteReply? && step.ok {
      NewRecord(c, s, step);
      forall j | 0 <= j < |s.replies|
        ensures s.replies[j].p != s.workers[step.w].reader.p || s.replies[j].number != s.workers[step.w].pc.number
      {
        assert Recorded(s, j);
      }
    }
    hide HasRecord;
  }

  // ----- All together

  lemma MoveKeepsProxy(c: Config, s: State, step: Step, q: ParticipantId)
    requires Inv(c, s) && CanStep(c, s, step) && MovesWorker(s, step)
    ensures var t := Apply(c, s, step);
            LockInv(t, q) && SequenceInv(t, q) && RegistryInv(ProxyOf(t, q)) && AnsweredInv(t, q)
  {
    hide Inv, Apply, PcAfter, Skips, ProxyOf, Unread;
    var t, w, next := Apply(c, s, step), step.w, PcAfter(c, s, step);
    assert w in s.workers;
    hide *;
    ProxyFacts(c, s, q);
    WorkerFacts(c, s, w);
    MovedBy(c, s, step, q);
    MoveKeepsLocks(c, s, step, q);
    MoveKeepsSequence(s, t, w, next, q);
    MoveKeepsRegistry(s, t, w, next, q);
    MoveKeepsAnswered(s, t, w, next, q);
  }

  lemma StepKeepsProxies(c: Config, s: State, step: Step, q: ParticipantId)
    requires Inv(c, s) && CanStep(c, s, step)
    ensures var t := Apply(c, s, step);
            LockInv(t, q) && SequenceInv(t, q) && RegistryInv(ProxyOf(t, q)) && AnsweredInv(t, q)
  {
    hide *;
    if MovesWorker(s, step) {
      MoveKeepsProxy(c, s, step, q);
    } else {
      ProxyFacts(c, s, q);
      OtherShape(c, s, step);
      OthersKeepLocks(s, Apply(c, s, step), q);
      OthersKeepProxy(s, Apply(c, s, step), q);
    }
  }

  lemma OthersKeepProxy(s: State, t: State, q: ParticipantId)
    requires NobodyMoved(s, t) && LockInv(s, q) && SequenceInv(s, q) && RegistryInv(ProxyOf(s, q)) && AnsweredInv(s, q)
    ensures SequenceInv(t, q) && RegistryInv(ProxyOf(t, q)) && AnsweredInv(t, q)
  {
    hide ProxyOf;
    forall n | n in ProxyOf(t, q).replied && n in ProxyOf(t, q).registry
      ensures exists w :: Runs(t, w, ReplyReader(q)) && t.workers[w].pc == Erasing(n)
    {
      var w :| Runs(s, w, ReplyReader(q)) && s.workers[w].pc == Erasing(n);
      assert Runs(t, w, ReplyReader(q)) && t.workers[w].pc == Erasing(n);
    }
  }

  lemma StepKeepsWorkers(c: Config, s: State, step: Step, v: nat)
    requires Inv(c, s) && CanStep(c, s, step) && v in Apply(c, s, step).workers
    ensures var t := Apply(c, s, step);
            PendingInv(t, v) && ReplyInv(ProxyOf(t, t.workers[v].reader.p), t.workers[v].pc)
  {
    if !MovesWorker(s, step) {
      OtherShape(c, s, step);
      assert v in s.workers ==> PendingInv(s, v) && ReplyInv(ProxyOf(s, s.workers[v].reader.p), s.workers[v].pc);
      hide *;
      NobodyMovedKeepsWorker(s, Apply(c, s, step), v);
    } else if v == step.w {
      StepKeepsOwnReply(c, s, step);
      StepKeepsOwnPending(c, s, step);
      hide *;
    } else {
      WorkerShape(c, s, step);
      assert v in s.workers;
      hide *;
      OtherWorkerStays(c, s, step, v);
    }
  }

  lemma NobodyMovedKeepsWorker(s: State, t: State, v: nat)
    requires NobodyMoved(s, t) && v in t.workers
    requires v in s.workers ==> PendingInv(s, v) && ReplyInv(ProxyOf(s, s.workers[v].reader.p), s.workers[v].pc)
    ensures PendingInv(t, v) && ReplyInv(ProxyOf(t, t.workers[v].reader.p), t.workers[v].pc)
  {
    hide ProxyOf;
  }

  lemma StepKeepsOwnPending(c: Config, s: State, step: Step)
    requires Inv(c, s) && CanStep(c, s, step) && MovesWorker(s, step)
    ensures step.w in Apply(c, s, step).workers && PendingInv(Apply(c, s, step), step.w)
  {
    hide Inv, Apply, PcAfter, ProxyAfter, Edited, Answers, Skips, ProxyOf, Unread, SequenceInv, Moved, PendingInv;
    var next := PcAfter(c, s, step);
    WorkerShape(c, s, step);
    if next.Written? {
      MovedBy(c, s, step, next.q);
      ProxyFacts(c, s, next.q);
    }
    hide CanStep;
    MoveKeepsOwnPending(s, Apply(c, s, step), step.w, next);
  }

  lemma OthersPendingStays(c: Config, s: State, step: Step, v: nat)
    requires Inv(c, s) && CanStep(c, s, step) && MovesWorker(s, step) && v in s.workers && v != step.w
    ensures v in Apply(c, s, step).workers && PendingInv(Apply(c, s, step), v)
  {
    hide Inv, Apply, PcAfter, ProxyAfter, Edited, Answers, Skips, ProxyOf, Unread;
    var t, w, next, pc := Apply(c, s, step), step.w, PcAfter(c, s, step), s.workers[v].pc;
    assert w in s.workers;
    WorkerShape(c, s, step);
    WorkerFacts(c, s, v);
    if pc.Written? {
      ProxyFacts(c, s, pc.q);
      MovedBy(c, s, step, pc.q);
      hide *;
      MoveKeepsOthersPending(s, t, w, next, v);
    }
    hide CanStep;
  }

  lemma OthersReplyStays(c: Config, s: State, step: Step, v: nat)
    requires Inv(c, s) && CanStep(c, s, step) && MovesWorker(s, step) && v in s.workers && v != step.w
    ensures ReplyInv(ProxyOf(Apply(c, s, step), s.workers[v].reader.p), s.workers[v].pc)
  {
    hide Inv, Apply, PcAfter, Skips, ProxyOf, Unread;
    var t, w, next, pc, p := Apply(c, s, step), step.w, PcAfter(c, s, step), s.workers[v].pc, s.workers[v].reader.p;
    assert w in s.workers;
    WorkerFacts(c, s, v);
    if s.workers[v].reader.ReplyReader? {
      hide *;
      WorkerFacts(c, s, w);
      ProxyFacts(c, s, p);
      MovedBy(c, s, step, p);
      MoveKeepsOthersReply(s, t, w, next, v, p);
    }
    hide CanStep, MovesWorker;
  }

  lemma OtherWorkerStays(c: Config, s: State, step: Step, v: nat)
    requires Inv(c, s) && CanStep(c, s, step) && MovesWorker(s, step) && v in s.workers && v != step.w
    ensures var t := Apply(c, s, step);
            && v in t.workers && t.workers[v] == s.workers[v]
            && PendingInv(t, v) && ReplyInv(ProxyOf(t, t.workers[v].reader.p), t.workers[v].pc)
  {
    hide *;
    OthersPendingStays(c, s, step, v);
    OthersReplyStays(c, s, step, v);
    WorkerShape(c, s, step);
  }

  lemma PartsMakeInv(c: Config, s: State)
    requires FlagInv(s) && DataInv(s) && WakeInv(s) && ControllerInv(c, s) && RecordInv(s)
    requires forall q :: LockInv(s, q) && SequenceInv(s, q) && RegistryInv(ProxyOf(s, q)) && AnsweredInv(s, q)
    requires forall w :: w in s.workers ==>
               PendingInv(s, w) && ReplyInv(ProxyOf(s, s.workers[w].reader.p), s.workers[w].pc)
    ensures Inv(c, s)
  {
    hide FlagInv, DataInv, WakeInv, ControllerInv, LockInv, SequenceInv, RegistryInv, AnsweredInv, PendingInv,
      ReplyInv, RecordInv, ProxyOf;
  }

  lemma InvParts(c: Config, s: State)
    requires Inv(c, s)
    ensures FlagInv(s) && DataInv(s) && WakeInv(s) && ControllerInv(c, s)
  {
    hide FlagInv, DataInv, WakeInv, ControllerInv, LockInv, SequenceInv, RegistryInv, AnsweredInv, PendingInv,
      ReplyInv, RecordInv, ProxyOf;
  }

  lemma StepKeepsInv(c: Config, s: State, step: Step)
    requires Inv(c, s) && CanStep(c, s, step)
    ensures Inv(c, Apply(c, s, step))
  {
    hide *;
    var t := Apply(c, s, step);
    InvParts(c, s);
    StepKeepsFlags(c, s, step);
    StepKeepsData(c, s, step);
    StepKeepsWake(c, s, step);
    StepKeepsController(c, s, step);
    StepKeepsRecords(c, s, step);
    forall q ensures LockInv(t, q) && SequenceInv(t, q) && RegistryInv(ProxyOf(t, q)) && AnsweredInv(t, q) {
      StepKeepsProxies(c, s, step, q);
    }
    forall v | v in t.workers
      ensures PendingInv(t, v) && ReplyInv(ProxyOf(t, t.workers[v].reader.p), t.workers[v].pc)
    {
      StepKeepsWorkers(c, s, step, v);
    }
    PartsMakeInv(c, t);
  }

  lemma {:induction false} RunKeepsInv(c: Config, s: State, steps: seq<Step>)
    requires Inv(c, s) && IsRun(c, s, steps)
    ensures Inv(c, RpcProtocol.After(c, s, steps))
    decreases |steps|
  {
    hide Inv, Apply, CanStep;
    if steps != [] {
      StepKeepsInv(c, s, steps[0]);
      RunKeepsInv(c, Apply(c, s, steps[0]), steps[1..]);
    }
  }
}
