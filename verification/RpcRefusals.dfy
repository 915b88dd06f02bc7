/**
 When a take of the RPC bridge is refused because its reader is disabled.

 It happens to a task left over from before a disable, or raised by a callback in flight since then, if it runs
 while the next enable is under way.
 */
module RpcRefusals {
  import opened DdsPipeTypes
  import opened ServiceRegistries
  import opened RpcProtocol
  import opened RpcInvariant
  import opened RpcTheorems

  /** Worker w is about to take from r, which is disabled. */
  predicate Refuses(c: Config, s: State, w: nat, r: ReaderId) {
    CanStep(c, s, Take(w)) && s.workers[w].reader == r && r !in s.openReaders
  }

  /** Enable has set the flag of the bridge but not reached reader r. */
  predicate NotReached(s: State, r: ReaderId) {
    (s.controller.Enabling? || s.controller.Announcing?) && r in s.controller.toEnable
  }

  lemma RefusedExactly(c: Config, s: State, w: nat)
    requires FlagInv(s) && ControllerInv(c, s) && QuietInv(c, s) && CanStep(c, s, Take(w))
    ensures s.workers[w].reader !in s.openReaders <==> NotReached(s, s.workers[w].reader)
  {
    hide Readers, Skips, ProxyOf, Unread;
    var r := s.workers[w].reader;
    assert Runs(s, w, r) && OneConsumer(s, r);
  }

  /** In every run: a take is refused exactly while an enable under way has not reached its reader. */
  lemma TakeIsRefusedExactly(c: Config, steps: seq<Step>, w: nat)
    requires IsRun(c, Initial(), steps)
    ensures var s := RpcProtocol.After(c, Initial(), steps);
            CanStep(c, s, Take(w)) ==>
              (s.workers[w].reader !in s.openReaders <==> NotReached(s, s.workers[w].reader))
  {
    hide IsRun, RpcProtocol.After, FlagInv, DataInv, WakeInv, ControllerInv, RecordInv, QuietInv, NotReached;
    InitialInv(c);
    InitialQuiet(c);
    RunKeepsQuiet(c, Initial(), steps);
    ReachableInv(c, steps);
    var s := RpcProtocol.After(c, Initial(), steps);
    if CanStep(c, s, Take(w)) {
      RefusedExactly(c, s, w);
    }
  }

  // ----- What the caller of enable can tell beforehand

  /** The run enables the bridge and does not disable it again. */
  ghost predicate Enables(c: Config, s: State, steps: seq<Step>) {
    && steps != [] && steps[0] == StartEnable && IsRun(c, s, steps)
    && forall k :: 0 <= k < |steps| ==> !steps[k].StartDisable?
  }

  /** Such a run that ends where a take on r is refused. */
  ghost predicate LeadsToRefusal(c: Config, s: State, steps: seq<Step>, r: ReaderId) {
    Enables(c, s, steps) && exists w :: Refuses(c, RpcProtocol.After(c, s, steps), w, r)
  }

  /** A task of r is left over, or a callback of r that found it enabled is still in flight. */
  predicate LeftOver(s: State, r: ReaderId) {
    r in s.flags || r in s.callbacks
  }

  /** Enabled, or being enabled, with nothing of r under way unless r is open. */
  predicate Served(s: State, r: ReaderId) {
    && s.enabled && (s.controller.Idle? || s.controller.Enabling? || s.controller.Announcing?)
    && (LeftOver(s, r) || Announces(s, r) ==> r in s.openReaders)
  }

  lemma ReaderKeepsServed(c: Config, s: State, step: Step, r: ReaderId)
    requires Served(s, r) && CanStep(c, s, step) && IsReaderStep(step)
    ensures Served(ReaderStep(c, s, step), r)
  {
    ReaderKeepsController(c, s, step);
    hide ProxyOf, Unread;
  }

  lemma ControllerKeepsServed(c: Config, s: State, step: Step, r: ReaderId)
    requires Served(s, r) && CanStep(c, s, step) && IsControllerStep(step) && !step.StartDisable?
    ensures Served(ControllerStep(c, s, step), r)
  {
    hide Readers;
  }

  lemma WorkerKeepsServed(c: Config, s: State, step: Step, r: ReaderId)
    requires Served(s, r) && CanStep(c, s, step) && IsWorkerStep(step)
    ensures Served(WorkerStep(c, s, step), r)
  {
    WorkerKeepsController(c, s, step);
    WorkerLeavesNothingOver(c, s, step);
    hide WorkerStep, CanStep;
  }

  lemma StepKeepsServed(c: Config, s: State, step: Step, r: ReaderId)
    requires Served(s, r) && CanStep(c, s, step) && !step.StartDisable?
    ensures Served(Apply(c, s, step), r)
  {
    hide Served, CanStep, WorkerStep, ReaderStep, ControllerStep;
    if IsWorkerStep(step) {
      WorkerKeepsServed(c, s, step, r);
    } else if IsReaderStep(step) {
      ReaderKeepsServed(c, s, step, r);
    } else {
      ControllerKeepsServed(c, s, step, r);
    }
  }

  lemma WorkerLeavesNothingOver(c: Config, s: State, step: Step)
    requires CanStep(c, s, step) && IsWorkerStep(step)
    ensures WorkerStep(c, s, step).flags <= s.flags && WorkerStep(c, s, step).callbacks == s.callbacks
  {
    hide PcAfter, ProxyAfter, Edited, Answers, Skips, ProxyOf, Unread;
  }

  lemma {:induction false} RunKeepsServed(c: Config, s: State, steps: seq<Step>, r: ReaderId)
    requires Served(s, r) && IsRun(c, s, steps) && forall k :: 0 <= k < |steps| ==> !steps[k].StartDisable?
    ensures Served(RpcProtocol.After(c, s, steps), r)
    decreases |steps|
  {
    hide Apply, CanStep, Served;
    if steps != [] {
      StepKeepsServed(c, s, steps[0], r);
      RunKeepsServed(c, Apply(c, s, steps[0]), steps[1..], r);
    }
  }

  /** With nothing of r left over, no take on r is refused until the next disable. */
  lemma NoLeftoverNoRefusal(c: Config, s: State, steps: seq<Step>, r: ReaderId)
    requires Inv(c, s) && !s.enabled && s.controller.Idle? && !LeftOver(s, r)
    ensures !LeadsToRefusal(c, s, steps, r)
  {
    if Enables(c, s, steps) {
      var t := RpcProtocol.After(c, s, steps);
      RunKeepsServed(c, Apply(c, s, StartEnable), steps[1..], r);
      RunKeepsInv(c, s, steps);
      assert FlagInv(t);
      hide IsRun, RpcProtocol.After, Apply, Inv, FlagInv;
      forall w ensures !Refuses(c, t, w, r) {
        OpenIsNotRefused(c, t, w, r);
      }
    }
  }

  lemma OpenIsNotRefused(c: Config, s: State, w: nat, r: ReaderId)
    requires FlagInv(s) && Served(s, r)
    ensures !Refuses(c, s, w, r)
  {
    assert OneConsumer(s, r);
    assert Runs(s, w, r) ==> r in s.flags;
  }

  lemma {:induction false} OneStepMore(c: Config, s: State, steps: seq<Step>, step: Step) returns (longer: seq<Step>)
    requires IsRun(c, s, steps) && CanStep(c, RpcProtocol.After(c, s, steps), step)
    ensures longer == steps + [step] && IsRun(c, s, longer)
    ensures RpcProtocol.After(c, s, longer) == Apply(c, RpcProtocol.After(c, s, steps), step)
    decreases |steps|
  {
    hide Apply, CanStep;
    if steps == [] {
      longer := [step];
      assert [step][1..] == [];
    } else {
      var rest := OneStepMore(c, Apply(c, s, steps[0]), steps[1..], step);
      longer := [steps[0]] + rest;
      assert longer[1..] == rest;
    }
  }

  /** Some thread of the pool is free. */
  lemma {:induction false} FreshWorker(ids: set<nat>) returns (w: nat)
    ensures forall id :: id in ids ==> id < w
    decreases |ids|
  {
    w := 0;
    if ids != {} {
      var id :| id in ids;
      var v := FreshWorker(ids - {id});
      w := if v <= id then id + 1 else v;
      assert forall i :: i in ids ==> i == id || i in ids - {id};
    }
  }

  lemma EnablesMore(c: Config, s: State, steps: seq<Step>, step: Step) returns (longer: seq<Step>)
    requires Enables(c, s, steps) && CanStep(c, RpcProtocol.After(c, s, steps), step) && !step.StartDisable?
    ensures Enables(c, s, longer)
    ensures RpcProtocol.After(c, s, longer) == Apply(c, RpcProtocol.After(c, s, steps), step)
  {
    hide IsRun, RpcProtocol.After, Apply, CanStep;
    longer := OneStepMore(c, s, steps, step);
  }

  lemma EnableStarts(c: Config, s: State) returns (steps: seq<Step>)
    requires !s.enabled && s.controller.Idle?
    ensures Enables(c, s, steps)
    ensures RpcProtocol.After(c, s, steps) == s.(enabled := true, controller := Enabling(Readers(c)))
  {
    steps := [StartEnable];
    assert steps[1..] == [];
  }

  /** The callback of r, if there is one, finds the bridge enabled and raises the flag. */
  lemma CallbackRaises(c: Config, s: State, before: seq<Step>, r: ReaderId) returns (steps: seq<Step>)
    requires Enables(c, s, before) && RpcProtocol.After(c, s, before).enabled
    ensures Enables(c, s, steps)
    ensures var t, u := RpcProtocol.After(c, s, before), RpcProtocol.After(c, s, steps);
            && u == t.(callbacks := t.callbacks - {r}, flags := u.flags, queued := u.queued)
            && (LeftOver(t, r) ==> r in u.flags)
  {
    steps := before;
    var t := RpcProtocol.After(c, s, before);
    hide IsRun, RpcProtocol.After, Apply, CanStep, Enables;
    if r in t.callbacks {
      if t.callbacks[r].Called? {
        CalledSeesBridge(c, t, r);
        steps := EnablesMore(c, s, steps, SeeBridge(r));
      }
      var seen := RpcProtocol.After(c, s, steps);
      assert seen == t.(callbacks := seen.callbacks) && seen.callbacks - {r} == t.callbacks - {r};
      RaisingRaises(c, seen, r);
      steps := EnablesMore(c, s, steps, RaiseFlag(r));
    }
  }

  lemma CalledSeesBridge(c: Config, t: State, r: ReaderId)
    requires t.enabled && r in t.callbacks && t.callbacks[r].Called?
    ensures CanStep(c, t, SeeBridge(r))
    ensures Apply(c, t, SeeBridge(r)) == t.(callbacks := t.callbacks[r := Raising])
  {
  }

  lemma RaisingRaises(c: Config, t: State, r: ReaderId)
    requires r in t.callbacks && t.callbacks[r].Raising?
    ensures CanStep(c, t, RaiseFlag(r))
    ensures var u := Apply(c, t, RaiseFlag(r));
            u == t.(callbacks := t.callbacks - {r}, flags := t.flags + {r}, queued := u.queued)
  {
    assert r in t.flags ==> t.flags + {r} == t.flags;
  }

  /** Data is waiting for r, which is still disabled. */
  lemma DataArrives(c: Config, s: State, before: seq<Step>, r: ReaderId) returns (steps: seq<Step>)
    requires Enables(c, s, before)
    requires var t := RpcProtocol.After(c, s, before); r !in t.callbacks && r !in t.openReaders
    ensures Enables(c, s, steps)
    ensures var t, u := RpcProtocol.After(c, s, before), RpcProtocol.After(c, s, steps);
            u == t.(unread := u.unread) && Unread(u, r) != []
  {
    steps := before;
    var t := RpcProtocol.After(c, s, before);
    hide IsRun, RpcProtocol.After, WorkerStep;
    if Unread(t, r) == [] {
      var sample := if r.RequestReader? then Request(SampleIdentity(1, 1)) else Reply(false, 0);
      steps := EnablesMore(c, s, steps, Arrive(r, sample));
    }
  }

  /** A worker of r is about to look for data, which is there, while r is still disabled. */
  predicate Unready(s: State, w: nat, r: ReaderId) {
    && Runs(s, w, r) && s.workers[w].pc.Checking? && s.enabled && Unread(s, r) != []
    && r !in s.openReaders && r !in s.callbacks && !s.controller.Announcing?
  }

  /** It finds the data and goes on to take it. */
  lemma CheckFindsData(c: Config, s: State, w: nat, r: ReaderId)
    requires Unready(s, w, r)
    ensures CanStep(c, s, Check(w)) && Refuses(c, Apply(c, s, Check(w)), w, r)
  {
    hide Unread, Skips, ProxyOf, ProxyAfter;
  }

  lemma QueuedTaskStarts(c: Config, s: State, w: nat, r: ReaderId)
    requires r in s.queued && w !in s.workers && s.enabled && Unread(s, r) != []
    requires r !in s.openReaders && r !in s.callbacks && !s.controller.Announcing?
    ensures CanStep(c, s, StartWorker(w, r)) && Unready(Apply(c, s, StartWorker(w, r)), w, r)
  {
    hide Skips, ProxyOf, WorkerStep;
  }

  /** Enable has begun, and the flag of r is up before r is enabled. */
  lemma FlagBeforeReader(c: Config, s: State, r: ReaderId) returns (steps: seq<Step>)
    requires LeftOver(s, r) && !s.enabled && s.controller.Idle? && s.openReaders == {}
    ensures Enables(c, s, steps)
    ensures var t := RpcProtocol.After(c, s, steps);
            && r in t.flags && r !in t.callbacks && t.enabled && t.controller.Enabling?
            && t.openReaders == {} && Unread(t, r) != [] && t.workers == s.workers
  {
    hide IsRun, RpcProtocol.After, Apply, CanStep, Unread, Enables;
    steps := EnableStarts(c, s);
    steps := CallbackRaises(c, s, steps, r);
    steps := DataArrives(c, s, steps, r);
  }

  /** Its task, which may not have started yet, can go on to the check. */
  lemma WorkerBeforeReader(c: Config, s: State, before: seq<Step>, r: ReaderId) returns (steps: seq<Step>, w: nat)
    requires Enables(c, s, before)
    requires var t := RpcProtocol.After(c, s, before);
             && OneConsumer(t, r) && r in t.flags && r !in t.callbacks && t.enabled && t.controller.Enabling?
             && t.openReaders == {} && Unread(t, r) != []
             && forall v :: v in t.workers ==> t.workers[v].pc.Checking?
    ensures Enables(c, s, steps) && Unready(RpcProtocol.After(c, s, steps), w, r)
  {
    steps := before;
    var t := RpcProtocol.After(c, s, before);
    hide IsRun, RpcProtocol.After, Apply, CanStep, Unread, Enables;
    if v: nat :| Runs(t, v, r) {
      w := v;
    } else {
      w := FreshWorker(t.workers.Keys);
      assert r in t.queued && w !in t.workers;
      QueuedTaskStarts(c, t, w, r);
      steps := EnablesMore(c, s, before, StartWorker(w, r));
    }
  }

  /** What is left over of r can get to its take before enable reaches r. */
  lemma LeftoverCanBeRefused(c: Config, s: State, r: ReaderId) returns (steps: seq<Step>)
    requires Inv(c, s) && QuietInv(c, s) && !s.enabled && s.controller.Idle? && LeftOver(s, r)
    ensures LeadsToRefusal(c, s, steps, r)
  {
    assert s.openReaders == {} && forall w :: w in s.workers ==> s.workers[w].pc.Checking?;
    steps := FlagBeforeReader(c, s, r);
    RunKeepsInv(c, s, steps);
    assert OneConsumer(RpcProtocol.After(c, s, steps), r);
    hide Inv, QuietInv, OneConsumer, IsRun, RpcProtocol.After, Apply, CanStep, Unready, Refuses, Enables;
    var w: nat;
    steps, w := WorkerBeforeReader(c, s, steps, r);
    CheckFindsData(c, RpcProtocol.After(c, s, steps), w, r);
    steps := EnablesMore(c, s, steps, Check(w));
  }

  /**
   From any reachable state in which the bridge is disabled and nobody is disabling it: enabling it can lead
   to a refused take on r exactly if the task flag of r is still up or a callback of r is still in flight.
   */
  lemma RefusalNeedsALeftoverExactly(c: Config, before: seq<Step>, r: ReaderId)
    requires IsRun(c, Initial(), before)
    requires var s := RpcProtocol.After(c, Initial(), before); !s.enabled && s.controller.Idle?
    ensures var s := RpcProtocol.After(c, Initial(), before);
            LeftOver(s, r) <==> exists steps :: LeadsToRefusal(c, s, steps, r)
  {
    var s := RpcProtocol.After(c, Initial(), before);
    InitialInv(c);
    RunKeepsQuiet(c, Initial(), before);
    ReachableInv(c, before);
    hide Inv, QuietInv, LeadsToRefusal, IsRun, RpcProtocol.After, LeftOver;
    if LeftOver(s, r) {
      var steps := LeftoverCanBeRefused(c, s, r);
    } else {
      forall steps ensures !LeadsToRefusal(c, s, steps, r) {
        NoLeftoverNoRefusal(c, s, steps, r);
      }
    }
  }

  /** So enabling is safe for every reader exactly if no task flag is up and no callback in flight. */
  lemma NoLeftoverNoRefusalExactly(c: Config, before: seq<Step>)
    requires IsRun(c, Initial(), before)
    requires var s := RpcProtocol.After(c, Initial(), before); !s.enabled && s.controller.Idle?
    ensures var s := RpcProtocol.After(c, Initial(), before);
            s.flags == {} && s.callbacks == map[] <==> forall r, steps :: !LeadsToRefusal(c, s, steps, r)
  {
    var s := RpcProtocol.After(c, Initial(), before);
    forall r ensures LeftOver(s, r) <==> exists steps :: LeadsToRefusal(c, s, steps, r) {
      RefusalNeedsALeftoverExactly(c, before, r);
    }
    hide IsRun, RpcProtocol.After, LeadsToRefusal;
    if r :| LeftOver(s, r) {
      var steps :| LeadsToRefusal(c, s, steps, r);
      assert !forall r, steps :: !LeadsToRefusal(c, s, steps, r);
    } else {
      forall r, steps ensures !LeadsToRefusal(c, s, steps, r) {
        assert !LeftOver(s, r);
      }
      assert forall r :: r in s.flags || r in s.callbacks ==> LeftOver(s, r);
    }
  }

  // ----- A flag, or a callback, can outlive a disable

  lemma TwoReaders(c: Config, p: ParticipantId)
    requires c.participants == {p}
    ensures var a, b := RequestReader(p), ReplyReader(p);
            Readers(c) == {a, b} && {a, b} - {a} == {b} && {b} - {b} == {} && {a} + {b} == {a, b}
  {
  }

  /** Enabling the two readers of the only participant, one after the other. */
  lemma EnableBoth(c: Config, p: ParticipantId, t: State)
    requires c.participants == {p} && t.controller.Idle? && !t.enabled
    requires t.flags == {} && t.queued == multiset{} && t.openReaders == {} && t.callbacks == map[]
    ensures var a, b := RequestReader(p), ReplyReader(p);
            var t1 := t.(enabled := true, controller := Enabling({a, b}));
            var t2 := t1.(controller := Announcing(a, {b}), openReaders := {a});
            var t3 := t2.(controller := Enabling({b}), flags := {a}, queued := multiset{a});
            var t4 := t3.(controller := Announcing(b, {}), openReaders := {a, b});
            var t5 := t4.(controller := Enabling({}), flags := {a, b}, queued := multiset{a, b});
            && CanStep(c, t, StartEnable) && Apply(c, t, StartEnable) == t1
            && CanStep(c, t1, EnableReader(a)) && Apply(c, t1, EnableReader(a)) == t2
            && CanStep(c, t2, AnnounceReader) && Apply(c, t2, AnnounceReader) == t3
            && CanStep(c, t3, EnableReader(b)) && Apply(c, t3, EnableReader(b)) == t4
            && CanStep(c, t4, AnnounceReader) && Apply(c, t4, AnnounceReader) == t5
            && CanStep(c, t5, EnableDone) && Apply(c, t5, EnableDone) == t5.(controller := Idle)
  {
    hide WorkerStep, ProxyOf, Unread, Skips;
    TwoReaders(c, p);
  }

  lemma DisableBoth(c: Config, p: ParticipantId, t: State)
    requires c.participants == {p} && t.controller.Idle? && t.enabled && t.workers == map[]
    requires t.openReaders == {RequestReader(p), ReplyReader(p)}
    ensures var a, b := RequestReader(p), ReplyReader(p);
            var t1 := t.(enabled := false, controller := Draining);
            var t2 := t1.(controller := Disabling({a, b}));
            var t3 := t2.(controller := Disabling({b}), openReaders := {b});
            && CanStep(c, t, StartDisable) && Apply(c, t, StartDisable) == t1
            && CanStep(c, t1, Drained) && Apply(c, t1, Drained) == t2
            && CanStep(c, t2, DisableReader(a)) && Apply(c, t2, DisableReader(a)) == t3
            && CanStep(c, t3, DisableReader(b))
            && Apply(c, t3, DisableReader(b)) == t3.(controller := Disabling({}), openReaders := {})
  {
    hide WorkerStep, ProxyOf, Unread, Skips;
    TwoReaders(c, p);
  }

  /** A bridge of one participant, enabled for the first time. */
  lemma FirstEnable(c: Config, p: ParticipantId, s: State) returns (steps: seq<Step>)
    requires c.participants == {p} && s == Initial()
    ensures IsRun(c, s, steps)
    ensures RpcProtocol.After(c, s, steps)
         == s.(enabled := true, openReaders := {RequestReader(p), ReplyReader(p)},
               flags := {RequestReader(p), ReplyReader(p)},
               queued := multiset{RequestReader(p), ReplyReader(p)})
  {
    EnableBoth(c, p, s);
    steps := [];
    assert IsRun(c, s, steps) && RpcProtocol.After(c, s, steps) == s;
    hide IsRun, RpcProtocol.After, Apply, CanStep;
    steps := OneStepMore(c, s, steps, StartEnable);
    steps := OneStepMore(c, s, steps, EnableReader(RequestReader(p)));
    steps := OneStepMore(c, s, steps, AnnounceReader);
    steps := OneStepMore(c, s, steps, EnableReader(ReplyReader(p)));
    steps := OneStepMore(c, s, steps, AnnounceReader);
    steps := OneStepMore(c, s, steps, EnableDone);
  }

  /** Disabled with both tasks still queued. */
  lemma DisableAgain(c: Config, p: ParticipantId, s: State, before: seq<Step>) returns (steps: seq<Step>)
    requires c.participants == {p} && IsRun(c, s, before)
    requires var t := RpcProtocol.After(c, s, before);
             t.enabled && t.controller.Idle?
             && t.openReaders == {RequestReader(p), ReplyReader(p)} && t.workers == map[]
    ensures IsRun(c, s, steps)
    ensures RpcProtocol.After(c, s, steps)
         == RpcProtocol.After(c, s, before).(enabled := false, openReaders := {}, controller := Disabling({}))
  {
    DisableBoth(c, p, RpcProtocol.After(c, s, before));
    hide IsRun, RpcProtocol.After, Apply, CanStep;
    steps := OneStepMore(c, s, before, StartDisable);
    steps := OneStepMore(c, s, steps, Drained);
    steps := OneStepMore(c, s, steps, DisableReader(RequestReader(p)));
    steps := OneStepMore(c, s, steps, DisableReader(ReplyReader(p)));
  }

  lemma DisableEnds(c: Config, t: State)
    requires t.controller == Disabling({})
    ensures CanStep(c, t, DisableDone) && Apply(c, t, DisableDone) == t.(controller := Idle)
  {
  }

  /** Such a state is reached: a disable leaves the tasks that were queued, and their flags, as they are. */
  lemma FlagOutlivesDisable(c: Config, p: ParticipantId, s: State) returns (steps: seq<Step>)
    requires c.participants == {p} && s == Initial()
    ensures IsRun(c, s, steps)
    ensures var t := RpcProtocol.After(c, s, steps);
            !t.enabled && t.controller.Idle? && t.flags == {RequestReader(p), ReplyReader(p)}
  {
    steps := FirstEnable(c, p, s);
    steps := DisableAgain(c, p, s, steps);
    hide IsRun, RpcProtocol.After, Apply, CanStep;
    DisableEnds(c, RpcProtocol.After(c, s, steps));
    steps := OneStepMore(c, s, steps, DisableDone);
  }

  /** A task that finds nothing to read takes its flag down. */
  lemma TaskFindsNothing(c: Config, s: State, before: seq<Step>, r: ReaderId) returns (steps: seq<Step>)
    requires IsRun(c, s, before)
    requires var t := RpcProtocol.After(c, s, before);
             r in t.queued && t.workers == map[] && Unread(t, r) == [] && r !in t.callbacks
    ensures IsRun(c, s, steps)
    ensures var t := RpcProtocol.After(c, s, before);
            RpcProtocol.After(c, s, steps) == t.(queued := t.queued - multiset{r}, flags := t.flags - {r})
  {
    var t := RpcProtocol.After(c, s, before);
    hide IsRun, RpcProtocol.After;
    steps := OneStepMore(c, s, before, StartWorker(0, r));
    assert RpcProtocol.After(c, s, steps).workers == map[0 := Worker(r, Checking)];
    assert map[0 := Worker(r, Checking)] - {0} == map[];
    steps := OneStepMore(c, s, steps, Check(0));
  }

  lemma OpenReaderIsCalled(c: Config, s: State, before: seq<Step>, r: ReaderId) returns (steps: seq<Step>)
    requires IsRun(c, s, before) && r.RequestReader?
    requires var t := RpcProtocol.After(c, s, before); r in t.openReaders && t.callbacks == map[]
    ensures IsRun(c, s, steps)
    ensures var t, u := RpcProtocol.After(c, s, before), RpcProtocol.After(c, s, steps);
            u == t.(unread := u.unread, callbacks := map[r := Called])
  {
    hide IsRun, RpcProtocol.After;
    steps := OneStepMore(c, s, before, Arrive(r, Request(SampleIdentity(1, 1))));
  }

  /**
   Nor is it enough to wait until no flag is up: a run ends disabled and idle, with no flag up, no task queued
   and no worker, but with a callback in flight.
   */
  lemma CallbackOutlivesDisable(c: Config, p: ParticipantId, s: State) returns (steps: seq<Step>)
    requires c.participants == {p} && s == Initial()
    ensures IsRun(c, s, steps)
    ensures var t := RpcProtocol.After(c, s, steps);
            && !t.enabled && t.controller.Idle? && t.flags == {} && t.queued == multiset{} && t.workers == map[]
            && t.callbacks == map[RequestReader(p) := Called]
  {
    hide IsRun, RpcProtocol.After, Apply, CanStep;
    steps := FirstEnable(c, p, s);
    steps := TaskFindsNothing(c, s, steps, RequestReader(p));
    steps := TaskFindsNothing(c, s, steps, ReplyReader(p));
    steps := OpenReaderIsCalled(c, s, steps, RequestReader(p));
    steps := DisableAgain(c, p, s, steps);
    DisableEnds(c, RpcProtocol.After(c, s, steps));
    steps := OneStepMore(c, s, steps, DisableDone);
  }
}
