/**
 What the pipe is after any run, told from the operations alone: which lists are in force, which topics are known
 and since when, which are bridged, and with what writers where unused entities are kept.
 */
module PipeHistory {
  import opened DdsPipeTypes
  import opened AllowedTopics
  import opened DdsPipeConfigurations
  import opened DiscoveryDatabases
  import opened PipeModel
  import opened PipeSync
  import opened PipeRuns
  import DdsBridges

  // ----- Lists and activity

  /** The lists last loaded. */
  function LatestLists(first: Lists, ops: seq<Op>): Lists {
    if ops == [] then first
    else if ops[|ops| - 1].ReloadLists? then ops[|ops| - 1].lists
    else LatestLists(first, ops[..|ops| - 1])
  }

  /** The last of enable and disable. */
  predicate LastEnabled(first: bool, ops: seq<Op>) {
    if ops == [] then first
    else if ops[|ops| - 1].EnablePipe? then true
    else if ops[|ops| - 1].DisablePipe? then false
    else LastEnabled(first, ops[..|ops| - 1])
  }

  lemma StepKeepsLists(config: Configuration, s: System, op: Op)
    ensures var next := Next(config, s, op).pipe;
            && next.lists == (if op.ReloadLists? then op.lists else s.pipe.lists)
            && next.enabled == (op.EnablePipe? || (!op.DisablePipe? && s.pipe.enabled))
  {
    hide Allowed, FirstWriters, IsEndpointRelevant;
  }

  lemma {:induction false} ListsAreTheLatest(config: Configuration, s: System, ops: seq<Op>)
    ensures Ran(config, s, ops).pipe.lists == LatestLists(s.pipe.lists, ops)
    ensures Ran(config, s, ops).pipe.enabled == LastEnabled(s.pipe.enabled, ops)
    decreases |ops|
  {
    hide Next;
    if ops != [] {
      ListsAreTheLatest(config, s, ops[..|ops| - 1]);
      StepKeepsLists(config, Ran(config, s, ops[..|ops| - 1]), ops[|ops| - 1]);
    }
  }

  predicate IsActive(pipe: Pipe, t: DdsTopic) {
    t in pipe.current && pipe.current[t].active
  }

  /** After any run a known topic is active exactly if the pipe was last enabled and the lists last loaded allow it. */
  lemma ActiveExactly(config: Configuration, s: System, ops: seq<Op>, t: DdsTopic)
    requires ActivationInv(config, s.pipe) && t in Ran(config, s, ops).pipe.current
    ensures var lists := LatestLists(s.pipe.lists, ops);
            IsActive(Ran(config, s, ops).pipe, t) <==>
              LastEnabled(s.pipe.enabled, ops) && Allows(config.filters, lists.allow, lists.block, t)
  {
    RunKeepsActivation(config, s, ops);
    ListsAreTheLatest(config, s, ops);
    hide Ran, Allows;
  }

  // ----- Known topics and their discoverers

  /** The kinds of endpoints whose discovery the configuration asks for. */
  predicate Triggers(trigger: DiscoveryTrigger, kind: EndpointKind) {
    trigger.AnyTrigger? || (trigger.ReaderTrigger? && kind.Reader?) || (trigger.WriterTrigger? && kind.Writer?)
  }

  /** Nobody else stands for e's topic and participant. */
  ghost predicate IsOnItsOwn(config: Configuration, entities: Entities, e: Endpoint) {
    forall g :: g in entities && g != e.guid ==>
                  !(&& entities[g].active && Triggers(config.discoveryTrigger, entities[g].kind)
                    && entities[g].topic == e.topic && entities[g].discoverer == e.discoverer)
  }

  /** The operation reports topic t: a new endpoint of it, or one that is now active, with nobody else there. */
  ghost predicate Discovers(config: Configuration, entities: Entities, op: Op, t: DdsTopic) {
    && op.DatabaseOp? && op.op.endpoint.topic == t && !config.isServiceTopic(t)
    && Triggers(config.discoveryTrigger, op.op.endpoint.kind) && IsOnItsOwn(config, entities, op.op.endpoint)
    && (|| (op.op.kind.Add? && op.op.endpoint.guid !in entities)
        || (op.op.kind.Update? && op.op.endpoint.guid in entities && op.op.endpoint.active))
  }

  lemma RelevantOnItsOwn(config: Configuration, entities: Entities, e: Endpoint)
    ensures IsEndpointRelevant(config, entities[e.guid := e], e) <==>
              Triggers(config.discoveryTrigger, e.kind) && IsOnItsOwn(config, entities, e)
  {
    var after := entities[e.guid := e];
    var sharing := Sharing(config, after, e);
    assert forall g :: g in sharing <==> g in after && SharesWriter(config, e, after[g]);
    assert forall g :: g in entities && g != e.guid ==> after[g] == entities[g];
    if IsEndpointRelevant(config, after, e) {
      forall g | g in entities && g != e.guid ensures !SharesWriter(config, e, entities[g]) {
        assert g in sharing.Keys <==> SharesWriter(config, e, entities[g]);
      }
    }
  }

  /** One operation: topics become known by being discovered, are never forgotten, and keep their discoverer. */
  lemma StepKnows(config: Configuration, s: System, op: Op, t: DdsTopic)
    requires t in s.pipe.bridges ==> t in s.pipe.current
    ensures var next := Next(config, s, op).pipe;
            && (t in next.current <==> t in s.pipe.current || Discovers(config, s.entities, op, t))
            && (t in s.pipe.current ==> next.current[t].discoverer == s.pipe.current[t].discoverer)
            && (t in next.current && t !in s.pipe.current ==>
                  next.current[t].discoverer == op.op.endpoint.discoverer)
  {
    hide Allowed, FirstWriters, IsEndpointRelevant, IsOnItsOwn;
    if op.DatabaseOp? {
      RelevantOnItsOwn(config, s.entities, op.op.endpoint);
    }
  }

  /** Operation k of the run discovers t. */
  ghost predicate DiscoversAt(config: Configuration, s: System, ops: seq<Op>, k: nat, t: DdsTopic) {
    k < |ops| && Discovers(config, Ran(config, s, ops[..k]).entities, ops[k], t)
  }

  lemma DiscoversEarlier(config: Configuration, s: System, ops: seq<Op>, n: nat, k: nat, t: DdsTopic)
    requires k < n <= |ops|
    ensures DiscoversAt(config, s, ops[..n], k, t) <==> DiscoversAt(config, s, ops, k, t)
  {
    assert ops[..n][..k] == ops[..k];
  }

  lemma BridgedAreKnown(config: Configuration, s: System, ops: seq<Op>, t: DdsTopic)
    requires ActivationInv(config, s.pipe)
    ensures var pipe := Ran(config, s, ops).pipe; t in pipe.bridges ==> t in pipe.current
  {
    RunKeepsActivation(config, s, ops);
    hide Ran, Allowed;
  }

  /** After any run, the known topics are those known at the start and those discovered since. */
  lemma {:induction false} KnownMeansDiscovered(config: Configuration, s: System, ops: seq<Op>, t: DdsTopic)
    requires ActivationInv(config, s.pipe)
    ensures t in Ran(config, s, ops).pipe.current <==>
              t in s.pipe.current || exists k: nat :: DiscoversAt(config, s, ops, k, t)
    decreases |ops|
  {
    if ops != [] {
      var n := |ops| - 1;
      KnownMeansDiscovered(config, s, ops[..n], t);
      BridgedAreKnown(config, s, ops[..n], t);
      hide Next, Discovers, ActivationInv;
      StepKnows(config, Ran(config, s, ops[..n]), ops[n], t);
      assert DiscoversAt(config, s, ops, n, t) <==> Discovers(config, Ran(config, s, ops[..n]).entities, ops[n], t);
      forall k: nat | k < n ensures DiscoversAt(config, s, ops[..n], k, t) <==> DiscoversAt(config, s, ops, k, t) {
        DiscoversEarlier(config, s, ops, n, k, t);
      }
    }
  }

  /** A topic keeps for ever the discoverer it was first discovered by. */
  lemma {:induction false} FirstDiscovererIsKept(config: Configuration, s: System, ops: seq<Op>, t: DdsTopic, k: nat)
    requires ActivationInv(config, s.pipe) && t !in s.pipe.current
    requires DiscoversAt(config, s, ops, k, t) && forall j: nat :: j < k ==> !DiscoversAt(config, s, ops, j, t)
    ensures var current := Ran(config, s, ops).pipe.current;
            t in current && current[t].discoverer == ops[k].op.endpoint.discoverer
    decreases |ops|
  {
    var n := |ops| - 1;
    var earlier := Ran(config, s, ops[..n]);
    BridgedAreKnown(config, s, ops[..n], t);
    StepKnows(config, earlier, ops[n], t);
    KnownMeansDiscovered(config, s, ops[..n], t);
    forall j: nat | j < n ensures DiscoversAt(config, s, ops[..n], j, t) <==> DiscoversAt(config, s, ops, j, t) {
      DiscoversEarlier(config, s, ops, n, j, t);
    }
    hide Next, Discovers, ActivationInv;
    if k < n {
      FirstDiscovererIsKept(config, s, ops[..n], t, k);
    } else {
      assert forall j: nat :: DiscoversAt(config, s, ops[..n], j, t) ==> j < n;
    }
  }

  /** A topic known from the start keeps the discoverer it had. */
  lemma {:induction false} OldDiscovererIsKept(config: Configuration, s: System, ops: seq<Op>, t: DdsTopic)
    requires ActivationInv(config, s.pipe) && t in s.pipe.current
    ensures var current := Ran(config, s, ops).pipe.current;
            t in current && current[t].discoverer == s.pipe.current[t].discoverer
    decreases |ops|
  {
    if ops != [] {
      var n := |ops| - 1;
      OldDiscovererIsKept(config, s, ops[..n], t);
      BridgedAreKnown(config, s, ops[..n], t);
      hide Next, ActivationInv;
      StepKnows(config, Ran(config, s, ops[..n]), ops[n], t);
    }
  }

  // ----- Bridges

  /** A bridge is made only for a topic that becomes active, and never taken away. */
  ghost predicate BridgesGrow(pipe: Pipe, next: Pipe, t: DdsTopic) {
    && (t in pipe.bridges ==> t in next.bridges)
    && (t in next.bridges ==> t in pipe.bridges || IsActive(next, t))
  }

  lemma CallbackBridges(config: Configuration, entities: Entities, pipe: Pipe, outcome: Outcome, t: DdsTopic)
    ensures BridgesGrow(pipe, Notified(config, entities, pipe, outcome), t)
  {
    hide Allowed, FirstWriters, IsEndpointRelevant;
  }

  lemma EnableBridges(config: Configuration, pipe: Pipe, t: DdsTopic)
    ensures BridgesGrow(pipe, Enable(config, pipe), t) && BridgesGrow(pipe, Disable(pipe), t)
  {
    hide Allowed, FirstWriters;
  }

  lemma ReloadBridges(config: Configuration, pipe: Pipe, lists: Lists, t: DdsTopic)
    ensures BridgesGrow(pipe, Reload(config, pipe, lists), t)
  {
    hide Allowed, FirstWriters;
  }

  lemma StepBridges(config: Configuration, s: System, op: Op, t: DdsTopic)
    requires ActivationInv(config, s.pipe)
    ensures var next := Next(config, s, op).pipe;
            t in next.bridges <==> t in s.pipe.bridges || IsActive(next, t)
  {
    StepKeepsActivation(config, s, op);
    hide Allowed, Notified, Enable, Disable, Reload;
    match op
    case DatabaseOp(o) => CallbackBridges(config, Applied(s.entities, o), s.pipe, OutcomeOf(s.entities, o), t);
    case ReloadLists(lists) => ReloadBridges(config, s.pipe, lists, t);
    case _ => EnableBridges(config, s.pipe, t);
  }

  ghost predicate WasActive(config: Configuration, s: System, ops: seq<Op>, t: DdsTopic)
    decreases |ops|
  {
    IsActive(Ran(config, s, ops).pipe, t) || (ops != [] && WasActive(config, s, ops[..|ops| - 1], t))
  }

  /** A topic has a bridge exactly if it had one at the start or has been active since, and then for ever. */
  lemma {:induction false} BridgedMeansWasActive(config: Configuration, s: System, ops: seq<Op>, t: DdsTopic)
    requires ActivationInv(config, s.pipe)
    ensures t in Ran(config, s, ops).pipe.bridges <==> t in s.pipe.bridges || WasActive(config, s, ops, t)
    decreases |ops|
  {
    if ops != [] {
      var earlier := ops[..|ops| - 1];
      BridgedMeansWasActive(config, s, earlier, t);
      RunKeepsActivation(config, s, earlier);
      StepBridges(config, Ran(config, s, earlier), ops[|ops| - 1], t);
    }
    hide Next, Allowed;
  }

  /** Where unused entities are kept, every bridge has all its writers. */
  ghost predicate BridgesAreFull(config: Configuration, pipe: Pipe) {
    forall t :: t in pipe.bridges ==>
                  pipe.bridges[t].writers == DdsBridges.AllDestinations(config.participants, GetRoutesConfig(config, t))
  }

  lemma CallbackKeepsFull(config: Configuration, entities: Entities, pipe: Pipe, outcome: Outcome)
    requires !config.removeUnusedEntities && BridgesAreFull(config, pipe)
    ensures BridgesAreFull(config, Notified(config, entities, pipe, outcome))
  {
    hide Allowed, IsEndpointRelevant, DdsBridges.AllDestinations, GetRoutesConfig;
  }

  lemma EnableKeepsFull(config: Configuration, pipe: Pipe)
    requires !config.removeUnusedEntities && BridgesAreFull(config, pipe)
    ensures BridgesAreFull(config, Enable(config, pipe)) && BridgesAreFull(config, Disable(pipe))
  {
    hide Allowed, DdsBridges.AllDestinations, GetRoutesConfig;
  }

  lemma ReloadKeepsFull(config: Configuration, pipe: Pipe, lists: Lists)
    requires !config.removeUnusedEntities && BridgesAreFull(config, pipe)
    ensures BridgesAreFull(config, Reload(config, pipe, lists))
  {
    hide Allowed, DdsBridges.AllDestinations, GetRoutesConfig;
  }

  lemma StepKeepsFull(config: Configuration, s: System, op: Op)
    requires !config.removeUnusedEntities && BridgesAreFull(config, s.pipe)
    ensures BridgesAreFull(config, Next(config, s, op).pipe)
  {
    hide BridgesAreFull, Notified, Enable, Disable, Reload;
    if op.DatabaseOp? {
      CallbackKeepsFull(config, Applied(s.entities, op.op), s.pipe, OutcomeOf(s.entities, op.op));
    } else if op.ReloadLists? {
      ReloadKeepsFull(config, s.pipe, op.lists);
    } else {
      EnableKeepsFull(config, s.pipe);
    }
  }

  lemma {:induction false} RunKeepsFull(config: Configuration, s: System, ops: seq<Op>)
    requires !config.removeUnusedEntities && BridgesAreFull(config, s.pipe)
    ensures BridgesAreFull(config, Ran(config, s, ops).pipe)
    decreases |ops|
  {
    hide Next, BridgesAreFull;
    if ops != [] {
      RunKeepsFull(config, s, ops[..|ops| - 1]);
      StepKeepsFull(config, Ran(config, s, ops[..|ops| - 1]), ops[|ops| - 1]);
    }
  }

  // ----- Services

  /** What the pipe has of topic t, apart from its activity. */
  predicate SameWriters(pipe: Pipe, next: Pipe, t: DdsTopic) {
    && (t in next.current <==> t in pipe.current)
    && (t in pipe.bridges ==> t in next.bridges && next.bridges[t].writers == pipe.bridges[t].writers)
  }

  lemma DiscoveryLeavesOthers(
    config: Configuration, pipe: Pipe, u: DdsTopic, discoverer: ParticipantId, t: DdsTopic)
    requires u != t
    ensures SameWriters(pipe, DiscoverTopic(config, pipe, u, discoverer), t)
  {
    hide Allowed, FirstWriters;
  }

  lemma CallbackLeavesServices(config: Configuration, entities: Entities, pipe: Pipe, outcome: Outcome, t: DdsTopic)
    requires config.isServiceTopic(t)
    ensures SameWriters(pipe, Notified(config, entities, pipe, outcome), t)
  {
    if (outcome.Added? || outcome.Updated?) && outcome.e.topic != t {
      DiscoveryLeavesOthers(config, pipe, outcome.e.topic, outcome.e.discoverer, t);
    }
    hide DiscoverTopic, IsEndpointRelevant;
  }

  lemma UserKeepsWriters(config: Configuration, pipe: Pipe, t: DdsTopic)
    ensures SameWriters(pipe, Enable(config, pipe), t) && SameWriters(pipe, Disable(pipe), t)
  {
    hide Allowed, FirstWriters;
  }

  lemma ReloadKeepsWriters(config: Configuration, pipe: Pipe, lists: Lists, t: DdsTopic)
    ensures SameWriters(pipe, Reload(config, pipe, lists), t)
  {
    hide Allowed, FirstWriters;
  }

  lemma StepLeavesServices(config: Configuration, s: System, op: Op, t: DdsTopic)
    requires config.isServiceTopic(t)
    ensures SameWriters(s.pipe, Next(config, s, op).pipe, t)
  {
    hide Notified, Enable, Disable, Reload, SameWriters;
    match op
    case DatabaseOp(o) => CallbackLeavesServices(config, Applied(s.entities, o), s.pipe, OutcomeOf(s.entities, o), t);
    case ReloadLists(lists) => ReloadKeepsWriters(config, s.pipe, lists, t);
    case _ => UserKeepsWriters(config, s.pipe, t);
  }

  /** Whatever is discovered of a service's topic, the pipe learns and edits nothing. */
  lemma {:induction false} RunLeavesServices(config: Configuration, s: System, ops: seq<Op>, t: DdsTopic)
    requires config.isServiceTopic(t)
    ensures SameWriters(s.pipe, Ran(config, s, ops).pipe, t)
    decreases |ops|
  {
    hide Next;
    if ops != [] {
      RunLeavesServices(config, s, ops[..|ops| - 1], t);
      StepLeavesServices(config, Ran(config, s, ops[..|ops| - 1]), ops[|ops| - 1], t);
    }
  }
}
