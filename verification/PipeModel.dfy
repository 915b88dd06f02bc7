/**
 The pipe as a value: which topics are known, which are bridged, and which participants have a writer in
 each bridge; and what each operation of the pipe makes of that.
 */
module PipeModel {
  import opened DdsPipeTypes
  import opened AllowedTopics
  import opened DdsPipeConfigurations
  import opened DiscoveryDatabases
  import DdsBridges

  datatype Lists = Lists(allow: set<DdsFilter>, block: set<DdsFilter>)

  /** A known topic keeps the discoverer it was first seen with. */
  datatype KnownTopic = KnownTopic(discoverer: ParticipantId, active: bool)

  datatype Bridge = Bridge(enabled: bool, writers: set<ParticipantId>)

  datatype Pipe = Pipe(enabled: bool, lists: Lists, current: map<DdsTopic, KnownTopic>, bridges: map<DdsTopic, Bridge>)

  ghost predicate Allowed(config: Configuration, lists: Lists, t: DdsTopic) {
    Allows(config.filters, lists.allow, lists.block, t)
  }

  predicate IsEndpointKindRelevant(config: Configuration, e: Endpoint) {
    match config.discoveryTrigger
    case ReaderTrigger => e.kind.Reader?
    case WriterTrigger => e.kind.Writer?
    case AnyTrigger => true
    case NoneTrigger => false
  }

  /** The active endpoints that e would share a bridge's writer with. */
  predicate SharesWriter(config: Configuration, e: Endpoint, other: Endpoint) {
    && other.active && IsEndpointKindRelevant(config, other)
    && other.topic == e.topic && other.discoverer == e.discoverer
  }

  function Sharing(config: Configuration, entities: Entities, e: Endpoint): Entities {
    map g | g in entities && SharesWriter(config, e, entities[g]) :: entities[g]
  }

  /** The edge filter: the first active endpoint of its kind on a topic and participant, or the last gone. */
  predicate IsEndpointRelevant(config: Configuration, entities: Entities, e: Endpoint) {
    && IsEndpointKindRelevant(config, e)
    && Sharing(config, entities, e).Keys == (if e.active then {e.guid} else {})
  }

  /** The writers a bridge starts with. */
  function FirstWriters(config: Configuration, t: DdsTopic, discoverer: ParticipantId): set<ParticipantId> {
    if config.removeUnusedEntities && discoverer != DEFAULT_PARTICIPANT_ID then {discoverer}
    else DdsBridges.AllDestinations(config.participants, GetRoutesConfig(config, t))
  }

  /** Marks t active and enables its bridge, creating it if there is none. */
  function ActivateTopic(config: Configuration, pipe: Pipe, t: DdsTopic, discoverer: ParticipantId): Pipe
    requires t in pipe.current
  {
    pipe.(current := pipe.current[t := pipe.current[t].(active := true)],
    bridges := pipe.bridges[t := if t in pipe.bridges then pipe.bridges[t].(enabled := true)
                                 else Bridge(true, FirstWriters(config, t, discoverer))])
  }

  function DeactivateTopic(pipe: Pipe, t: DdsTopic): Pipe
    requires t in pipe.current
  {
    pipe.(current := pipe.current[t := pipe.current[t].(active := false)],
    bridges := if t in pipe.bridges then pipe.bridges[t := pipe.bridges[t].(enabled := false)] else pipe.bridges)
  }

  ghost function DiscoverTopic(config: Configuration, pipe: Pipe, t: DdsTopic, discoverer: ParticipantId): Pipe {
    if t !in pipe.bridges then
      var known :=
        if t in pipe.current then pipe else pipe.(current := pipe.current[t := KnownTopic(discoverer, false)]);
      if pipe.enabled && Allowed(config, pipe.lists, t) then ActivateTopic(config, known, t, discoverer) else known
    else if config.removeUnusedEntities && discoverer != DEFAULT_PARTICIPANT_ID then
      pipe.(bridges := pipe.bridges[t := pipe.bridges[t].(writers := pipe.bridges[t].writers + {discoverer})])
    else pipe
  }

  ghost function EndpointDiscovered(config: Configuration, entities: Entities, pipe: Pipe, e: Endpoint): Pipe {
    if config.isServiceTopic(e.topic) then pipe
    else if IsEndpointRelevant(config, entities, e) then DiscoverTopic(config, pipe, e.topic, e.discoverer)
    else pipe
  }

  function EndpointRemoved(config: Configuration, entities: Entities, pipe: Pipe, e: Endpoint): Pipe {
    if config.isServiceTopic(e.topic) then pipe
    else if && config.removeUnusedEntities && IsEndpointRelevant(config, entities, e)
            && e.topic in pipe.bridges && e.discoverer != DEFAULT_PARTICIPANT_ID then
      var b := pipe.bridges[e.topic];
      pipe.(bridges := pipe.bridges[e.topic := b.(writers := b.writers - {e.discoverer})])
    else pipe
  }

  ghost function EndpointUpdated(config: Configuration, entities: Entities, pipe: Pipe, e: Endpoint): Pipe {
    if config.isServiceTopic(e.topic) then pipe
    else if e.active then EndpointDiscovered(config, entities, pipe, e)
    else EndpointRemoved(config, entities, pipe, e)
  }

  /** The callbacks an outcome of the database stands for. */
  ghost function Notified(config: Configuration, entities: Entities, pipe: Pipe, outcome: Outcome): Pipe {
    match outcome
    case Added(e) => EndpointDiscovered(config, entities, pipe, e)
    case Updated(e) => EndpointUpdated(config, entities, pipe, e)
    case Erased(e) => EndpointRemoved(config, entities, pipe, e)
    case Inconsistent => pipe
    case Silent => pipe
  }

  /** Several known topics activated, each with its stored discoverer. */
  function ActivateTopics(config: Configuration, pipe: Pipe, topics: set<DdsTopic>): (after: Pipe)
    requires topics <= pipe.current.Keys
    ensures after.current.Keys == pipe.current.Keys && after.bridges.Keys == pipe.bridges.Keys + topics
  {
    pipe.(current := map t | t in pipe.current ::
                       if t in topics then pipe.current[t].(active := true) else pipe.current[t],
    bridges := map t | t in pipe.bridges.Keys + topics ::
                 if t !in topics then pipe.bridges[t]
                 else if t in pipe.bridges then pipe.bridges[t].(enabled := true)
                 else Bridge(true, FirstWriters(config, t, pipe.current[t].discoverer)))
  }

  function DeactivateTopics(pipe: Pipe, topics: set<DdsTopic>): (after: Pipe)
    requires topics <= pipe.current.Keys
    ensures after.current.Keys == pipe.current.Keys && after.bridges.Keys == pipe.bridges.Keys
  {
    pipe.(current := map t | t in pipe.current ::
                       if t in topics then pipe.current[t].(active := false) else pipe.current[t],
    bridges := map t | t in pipe.bridges ::
                 if t in topics then pipe.bridges[t].(enabled := false) else pipe.bridges[t])
  }

  ghost function AllowedAmong(config: Configuration, lists: Lists, topics: set<DdsTopic>): (allowed: set<DdsTopic>)
    ensures allowed <= topics
  {
    set t | t in topics && Allowed(config, lists, t)
  }

  ghost function Enable(config: Configuration, pipe: Pipe): Pipe {
    if pipe.enabled then pipe
    else
      ActivateTopics(config, pipe.(enabled := true), AllowedAmong(config, pipe.lists, pipe.current.Keys))
  }

  function Disable(pipe: Pipe): Pipe {
    if pipe.enabled then DeactivateTopics(pipe.(enabled := false), pipe.current.Keys) else pipe
  }

  ghost function Blocked(config: Configuration, pipe: Pipe, topics: set<DdsTopic>): (blocked: set<DdsTopic>)
    requires topics <= pipe.current.Keys
    ensures blocked <= topics
  {
    set t | t in topics && pipe.current[t].active && !Allowed(config, pipe.lists, t)
  }

  ghost function Admitted(config: Configuration, pipe: Pipe, topics: set<DdsTopic>): (admitted: set<DdsTopic>)
    requires topics <= pipe.current.Keys
    ensures admitted <= topics
  {
    set t | t in topics && !pipe.current[t].active && Allowed(config, pipe.lists, t)
  }

  /** The given topics brought in line with the lists: active ones blocked, inactive ones admitted. */
  ghost function Realigned(config: Configuration, pipe: Pipe, topics: set<DdsTopic>): Pipe
    requires topics <= pipe.current.Keys
  {
    ActivateTopics(config, DeactivateTopics(pipe, Blocked(config, pipe, topics)), Admitted(config, pipe, topics))
  }

  ghost function Reload(config: Configuration, pipe: Pipe, lists: Lists): Pipe {
    if lists == pipe.lists then pipe
    else if !pipe.enabled then pipe.(lists := lists)
    else Realigned(config, pipe.(lists := lists), pipe.current.Keys)
  }

  // ----- The activation invariant

  /**
   A known topic is active exactly when the pipe is enabled and allows it; every bridged topic is known,
   every active one is bridged, and a bridge is enabled exactly when its topic is active.
   */
  ghost predicate ActivationInv(config: Configuration, pipe: Pipe) {
    && (forall t :: t in pipe.current ==> (pipe.current[t].active <==> pipe.enabled && Allowed(config, pipe.lists, t)))
    && (forall t :: t in pipe.bridges ==> t in pipe.current && pipe.bridges[t].enabled == pipe.current[t].active)
    && (forall t :: t in pipe.current && pipe.current[t].active ==> t in pipe.bridges)
  }

  /** Activating the one topic that should be active and is not. */
  lemma ActivationSettles(config: Configuration, pipe: Pipe, t: DdsTopic, discoverer: ParticipantId)
    requires t in pipe.current && t !in pipe.bridges && pipe.enabled && Allowed(config, pipe.lists, t)
    requires ActivationInv(config, pipe.(current := pipe.current - {t}))
    ensures ActivationInv(config, ActivateTopic(config, pipe, t, discoverer))
  {
    hide Allowed, FirstWriters;
    var others := pipe.current - {t};
    assert forall u :: u in pipe.current && u != t ==> u in others && others[u] == pipe.current[u];
  }

  lemma DiscoverTopicKeepsActivation(config: Configuration, pipe: Pipe, t: DdsTopic, discoverer: ParticipantId)
    requires ActivationInv(config, pipe)
    ensures ActivationInv(config, DiscoverTopic(config, pipe, t, discoverer))
  {
    hide Allowed, FirstWriters, ActivateTopic;
    if t !in pipe.bridges {
      var known :=
        if t in pipe.current then pipe else pipe.(current := pipe.current[t := KnownTopic(discoverer, false)]);
      if pipe.enabled && Allowed(config, pipe.lists, t) {
        assert t !in pipe.current && known.current - {t} == pipe.current;
        ActivationSettles(config, known, t, discoverer);
      }
    }
  }

  /** Whatever the database reports, the callback keeps the activation invariant. */
  lemma CallbacksKeepActivation(config: Configuration, entities: Entities, pipe: Pipe, outcome: Outcome)
    requires ActivationInv(config, pipe)
    ensures ActivationInv(config, Notified(config, entities, pipe, outcome))
  {
    hide Allowed, FirstWriters, IsEndpointRelevant, DiscoverTopic;
    if outcome.Added? || outcome.Updated? || outcome.Erased? {
      DiscoverTopicKeepsActivation(config, pipe, outcome.e.topic, outcome.e.discoverer);
    }
  }

  lemma EnableKeepsActivation(config: Configuration, pipe: Pipe)
    requires ActivationInv(config, pipe)
    ensures ActivationInv(config, Enable(config, pipe))
  {
    hide Allowed, FirstWriters;
  }

  lemma DisableKeepsActivation(config: Configuration, pipe: Pipe)
    requires ActivationInv(config, pipe)
    ensures ActivationInv(config, Disable(pipe))
  {
    hide Allowed;
  }

  lemma ReloadKeepsActivation(config: Configuration, pipe: Pipe, lists: Lists)
    requires ActivationInv(config, pipe)
    ensures ActivationInv(config, Reload(config, pipe, lists))
  {
    hide Allowed, FirstWriters;
  }
}
