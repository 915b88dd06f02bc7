/** The registries of the RPC bridge go through the operations of a service registry, and through no others. */
module RpcRegistries {
  import opened DdsPipeTypes
  import opened ServiceRegistries
  import opened RpcProtocol
  import opened RpcInvariant

  /** What the step does to the registry of q. */
  function RegistryOps(c: Config, s: State, step: RpcProtocol.Step, q: ParticipantId): seq<ServiceRegistries.Op>
    requires CanStep(c, s, step)
  {
    if step.AddEntry? && s.workers[step.w].pc.q == q then
      var worker := s.workers[step.w];
      [Add(worker.pc.number, Entry(worker.reader.p, worker.pc.identity))]
    else if step.EraseEntry? && s.workers[step.w].reader.p == q then [Erase(s.workers[step.w].pc.number)]
    else []
  }

  /** What a run does to it. */
  function AllRegistryOps(c: Config, s: State, steps: seq<RpcProtocol.Step>, q: ParticipantId)
    : seq<ServiceRegistries.Op>
    requires IsRun(c, s, steps)
    decreases |steps|
  {
    if steps == [] then []
    else RegistryOps(c, s, steps[0], q) + AllRegistryOps(c, Apply(c, s, steps[0]), steps[1..], q)
  }

  /** The registry is where these operations lead, all its additions are among them, and erased means answered. */
  ghost predicate CameFrom(x: Proxy, ops: seq<ServiceRegistries.Op>) {
    && x.registry == ServiceRegistries.After(ops)
    && (forall n :: n in x.added ==> exists i :: 0 <= i < |ops| && ops[i].Add? && ops[i].idx == n)
    && (forall n :: Erase(n) in ops ==> n in x.replied)
  }

  lemma AfterOneMore(ops: seq<ServiceRegistries.Op>, op: ServiceRegistries.Op)
    ensures ServiceRegistries.After(ops + [op]) == Applied(ServiceRegistries.After(ops), op)
  {
    assert (ops + [op])[..|ops|] == ops;
  }

  lemma CameFromOneMore(x: Proxy, y: Proxy, ops: seq<ServiceRegistries.Op>, op: ServiceRegistries.Op)
    requires CameFrom(x, ops) && y.registry == Applied(x.registry, op) && x.replied <= y.replied
    requires forall n :: n in y.added ==> n in x.added || (op.Add? && op.idx == n)
    requires op.Erase? ==> op.idx in x.replied
    ensures CameFrom(y, ops + [op])
  {
    AfterOneMore(ops, op);
    var all := ops + [op];
    forall n | n in y.added ensures exists i :: 0 <= i < |all| && all[i].Add? && all[i].idx == n {
      if n in x.added {
        var i :| 0 <= i < |ops| && ops[i].Add? && ops[i].idx == n;
        assert all[i] == ops[i];
      } else {
        assert all[|ops|] == op;
      }
    }
    hide Added;
  }

  /** The proxy of q before and after a step of a worker, as far as its registry goes. */
  lemma RegistryMoves(c: Config, s: State, step: RpcProtocol.Step, q: ParticipantId)
    requires CanStep(c, s, step) && MovesWorker(s, step)
    requires ReplyInv(ProxyOf(s, s.workers[step.w].reader.p), s.workers[step.w].pc)
    ensures var x := ProxyOf(s, q);
            var y := if q == Edited(c, s, step) then ProxyAfter(c, s, step) else x;
            var ops := RegistryOps(c, s, step, q);
            && x.replied <= y.replied
            && (ops == [] ==> y.registry == x.registry && y.added == x.added)
            && (ops != [] ==>
                  && ops == [ops[0]] && y.registry == Applied(x.registry, ops[0])
                  && (ops[0].Erase? ==> ops[0].idx in x.replied)
                  && forall n :: n in y.added ==> n in x.added || (ops[0].Add? && ops[0].idx == n))
  {
    hide ProxyOf, Unread, Skips, Added;
  }

  lemma StepCameFrom(
    c: Config, s: State, step: RpcProtocol.Step, q: ParticipantId, before: seq<ServiceRegistries.Op>)
    requires Inv(c, s) && CanStep(c, s, step) && CameFrom(ProxyOf(s, q), before)
    ensures CameFrom(ProxyOf(Apply(c, s, step), q), before + RegistryOps(c, s, step, q))
  {
    hide Inv, Apply, ProxyOf, Skips, Unread, ProxyAfter, Edited, PcAfter, ReplyInv, CameFrom, Applied;
    var x, y, ops := ProxyOf(s, q), ProxyOf(Apply(c, s, step), q), RegistryOps(c, s, step, q);
    if MovesWorker(s, step) {
      assert step.w in s.workers;
      WorkerFacts(c, s, step.w);
      WorkerShape(c, s, step);
      RegistryMoves(c, s, step, q);
      hide CanStep;
      if ops == [] {
        SameCameFrom(x, y, before);
        assert before + ops == before;
      } else {
        CameFromOneMore(x, y, before, ops[0]);
      }
    } else {
      OtherShape(c, s, step);
      SameCameFrom(x, y, before);
      assert before + ops == before;
    }
  }

  lemma SameCameFrom(x: Proxy, y: Proxy, ops: seq<ServiceRegistries.Op>)
    requires CameFrom(x, ops) && y.registry == x.registry && y.added == x.added && x.replied <= y.replied
    ensures CameFrom(y, ops)
  {
  }

  lemma {:induction false} RunCameFrom(
    c: Config, s: State, steps: seq<RpcProtocol.Step>, q: ParticipantId, before: seq<ServiceRegistries.Op>)
    requires Inv(c, s) && IsRun(c, s, steps) && CameFrom(ProxyOf(s, q), before)
    ensures CameFrom(ProxyOf(RpcProtocol.After(c, s, steps), q), before + AllRegistryOps(c, s, steps, q))
    decreases |steps|
  {
    hide Inv, Apply, CanStep, ProxyOf, CameFrom, RegistryOps;
    if steps == [] {
      assert before + [] == before;
    } else {
      var t, ops := Apply(c, s, steps[0]), RegistryOps(c, s, steps[0], q);
      StepCameFrom(c, s, steps[0], q, before);
      StepKeepsInv(c, s, steps[0]);
      RunCameFrom(c, t, steps[1..], q, before + ops);
      assert before + ops + AllRegistryOps(c, t, steps[1..], q) == before + AllRegistryOps(c, s, steps, q);
    }
  }

  /** In every run, each registry is what its own additions and erasures, in their order, make of an empty one. */
  lemma RegistriesFollowTheirOperations(c: Config, steps: seq<RpcProtocol.Step>, q: ParticipantId)
    requires IsRun(c, Initial(), steps)
    ensures CameFrom(ProxyOf(RpcProtocol.After(c, Initial(), steps), q), AllRegistryOps(c, Initial(), steps, q))
  {
    InitialInv(c);
    assert CameFrom(ProxyOf(Initial(), q), []);
    RunCameFrom(c, Initial(), steps, q, []);
    assert [] + AllRegistryOps(c, Initial(), steps, q) == AllRegistryOps(c, Initial(), steps, q);
  }

  /** A registry went, after its first j operations, through a state full of numbers newer than n. */
  ghost predicate WasCrowded(ops: seq<ServiceRegistries.Op>, n: SequenceNumber) {
    exists j :: 0 <= j <= |ops| && CrowdsOut(ServiceRegistries.After(ops[..j]), n)
  }

  /**
   In every run: when a reply is looked up and its request is not registered, the request has been answered, or
   4999 newer requests were registered at once.
   */
  lemma MissingMeansAnsweredOrCrowdedOut(c: Config, steps: seq<RpcProtocol.Step>, w: nat)
    requires IsRun(c, Initial(), steps)
    ensures var s := RpcProtocol.After(c, Initial(), steps);
            CanStep(c, s, LookUp(w)) ==>
              var q, n := s.workers[w].reader.p, s.workers[w].pc.number;
              || n in ProxyOf(s, q).registry || n in ProxyOf(s, q).replied
              || WasCrowded(AllRegistryOps(c, Initial(), steps, q), n)
  {
    hide IsRun, RpcProtocol.After, AllRegistryOps, Inv, ProxyOf, Skips, Unread, CameFrom, WasCrowded;
    var s := RpcProtocol.After(c, Initial(), steps);
    if CanStep(c, s, LookUp(w)) {
      InitialInv(c);
      RunKeepsInv(c, Initial(), steps);
      var q, n := s.workers[w].reader.p, s.workers[w].pc.number;
      RegistriesFollowTheirOperations(c, steps, q);
      LookedUpWasAdded(c, s, w);
      AddedIsThereOrCrowdedOut(ProxyOf(s, q), AllRegistryOps(c, Initial(), steps, q), n);
    }
  }

  lemma LookedUpWasAdded(c: Config, s: State, w: nat)
    requires Inv(c, s) && CanStep(c, s, LookUp(w))
    ensures s.workers[w].pc.number in ProxyOf(s, s.workers[w].reader.p).added
  {
    hide Inv, ProxyOf, LockInv, AnsweredInv, PendingInv, Skips, Unread;
    ProxyFacts(c, s, s.workers[w].reader.p);
    WorkerFacts(c, s, w);
  }

  lemma AddedIsThereOrCrowdedOut(x: Proxy, ops: seq<ServiceRegistries.Op>, n: SequenceNumber)
    requires CameFrom(x, ops) && n in x.added
    ensures n in x.registry || n in x.replied || WasCrowded(ops, n)
  {
    if n !in x.replied {
      var i :| 0 <= i < |ops| && ops[i].Add? && ops[i].idx == n;
      forall k | i < k < |ops| ensures ops[k] != Erase(n) {
        assert ops[k] == Erase(n) ==> Erase(n) in ops;
      }
      var j := MissingOnlyIfCrowdedOut(ops, i);
    }
  }
}
