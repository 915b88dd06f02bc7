/** The pipe as the program keeps it: a map of known topics and a map of bridge objects, edited in place. */
module DdsPipes {
  import opened DdsPipeTypes
  import opened RoutesConfiguration
  import opened AllowedTopics
  import opened DdsPipeConfigurations
  import opened DiscoveryDatabases
  import opened DdsBridges
  import opened PipeModel
  import opened PipeSync
  import opened PipeRuns
  import opened PipeHistory

  class DdsPipe {
    const config: Configuration
    const database: DiscoveryDatabase
    var enabled: bool
    var allowedTopics: AllowedTopicList<DdsFilter, DdsTopic>
    var currentTopics: map<DdsTopic, KnownTopic>
    var bridges: map<DdsTopic, DdsBridge>
    ghost var repr: set<DdsBridge> // all bridges ever created here
    ghost var start: System        // the pipe as created, and the database then
    ghost var history: seq<Op>     // the operations since

    ghost predicate ValidBridge(t: DdsTopic)
      requires t in bridges
      reads this, bridges[t]
    {
      && bridges[t].Valid() && bridges[t].participants == config.participants
      && bridges[t].routes == GetRoutesConfig(config, t)
    }

    ghost predicate ValidBridges()
      reads this, repr
    {
      && (forall t :: t in bridges ==> t in currentTopics && bridges[t] in repr && ValidBridge(t))
      && (forall t, u :: t in bridges && u in bridges && t != u ==> bridges[t] != bridges[u])
    }

    ghost predicate Valid()
      reads this, allowedTopics, repr
    {
      && ValidConfiguration(config)
      && allowedTopics.filters == config.filters
      && ValidBridges()
      && (forall t :: t in currentTopics ==> CanWrite(currentTopics[t].discoverer))
    }

    /** A writer can be created in the participant, or nobody is the discoverer. */
    predicate CanWrite(id: ParticipantId) {
      id == DEFAULT_PARTICIPANT_ID || id in config.participants
    }

    ghost function BridgeViews(): (views: map<DdsTopic, Bridge>)
      requires ValidBridges()
      reads this, repr
      ensures views.Keys == bridges.Keys
    {
      map t | t in bridges :: Bridge(bridges[t].enabled, bridges[t].writers.Keys)
    }

    ghost function View(): Pipe
      requires ValidBridges()
      reads this, allowedTopics, repr
    {
      Pipe(enabled, Lists(allowedTopics.allowlist, allowedTopics.blocklist), currentTopics, BridgeViews())
    }

    /** Pipe and database are where the operations of the history lead to. */
    ghost predicate Traced()
      reads this, allowedTopics, repr, database
    {
      Valid() && System(database.entities, View()) == Ran(config, start, history)
    }

    /** The configuration has been validated; Create below does that. */
    constructor (config: Configuration, database: DiscoveryDatabase, allow: set<DdsFilter>, block: set<DdsFilter>)
      requires ValidConfiguration(config) && Transitive(config.filters) && SoundFor(config.filters)
      ensures Valid() && repr == {} && fresh(allowedTopics)
      ensures this.config == config && this.database == database
      ensures IsReduction(config.filters, allow, allowedTopics.allowlist)
      ensures IsReduction(config.filters, block, allowedTopics.blocklist)
      ensures View() == Pipe(false, Lists(allowedTopics.allowlist, allowedTopics.blocklist), map[], map[])
    {
      this.config, this.database := config, database;
      allowedTopics := new AllowedTopicList(config.filters, allow, block);
      enabled, currentTopics, bridges, repr := false, map[], map[], {};
      start, history := System(map[], Pipe(false, Lists({}, {}), map[], map[])), [];
    }

    // ----- One bridge at a time

    method CreateNewBridge(topic: DdsTopic, discoverer: ParticipantId, enableIt: bool)
      requires Valid() && topic in currentTopics && CanWrite(discoverer)
      modifies this`bridges, this`repr
      ensures Valid() && fresh(repr - old(repr))
      ensures BridgeViews() == old(BridgeViews())[topic := Bridge(enableIt, FirstWriters(config, topic, discoverer))]
    {
      hide DdsBridge.Valid, GetRoutesConfig, ValidConfiguration, FirstWriters, ValidBridges, BridgeViews;
      var newBridge := MakeBridge(topic, discoverer, enableIt);
      bridges := bridges[topic := newBridge];
      repr := repr + {newBridge};
      OneBridgeAdded(topic);
    }

    /** A bridge object that did not exist before has taken the topic. */
    twostate lemma OneBridgeAdded(topic: DdsTopic)
      requires old(ValidBridges()) && topic in bridges && topic in currentTopics && ValidBridge(topic)
      requires fresh(bridges[topic]) && bridges == old(bridges)[topic := bridges[topic]]
      requires repr == old(repr) + {bridges[topic]} && currentTopics == old(currentTopics)
      requires forall b :: b in old(repr) ==> unchanged(b)
      ensures ValidBridges()
      ensures BridgeViews() == old(BridgeViews())[topic := Bridge(bridges[topic].enabled, bridges[topic].writers.Keys)]
    {
      OneMoreValidBridge(topic);
      hide ValidBridges, ValidBridge;
      ViewsGrow(topic);
    }

    twostate lemma ViewsGrow(topic: DdsTopic)
      requires old(ValidBridges()) && ValidBridges() && topic in bridges
      requires bridges == old(bridges)[topic := bridges[topic]] && forall b :: b in old(repr) ==> unchanged(b)
      ensures BridgeViews() == old(BridgeViews())[topic := Bridge(bridges[topic].enabled, bridges[topic].writers.Keys)]
    {
      hide DdsBridge.Valid, GetRoutesConfig, ValidBridge;
      assert forall t :: t in bridges && t != topic ==> old(bridges[t] in repr);
    }

    twostate lemma OneMoreValidBridge(topic: DdsTopic)
      requires old(ValidBridges()) && topic in bridges && topic in currentTopics && ValidBridge(topic)
      requires fresh(bridges[topic]) && bridges == old(bridges)[topic := bridges[topic]]
      requires repr == old(repr) + {bridges[topic]} && currentTopics == old(currentTopics)
      requires forall b :: b in old(repr) ==> unchanged(b)
      ensures ValidBridges()
    {
      hide DdsBridge.Valid, GetRoutesConfig, BridgeViews;
      forall t | t in bridges && t != topic ensures t in old(bridges) && unchanged(bridges[t]) && ValidBridge(t) {
        assert old(ValidBridge(t));
      }
    }

    method MakeBridge(topic: DdsTopic, discoverer: ParticipantId, enableIt: bool) returns (newBridge: DdsBridge)
      requires Valid() && CanWrite(discoverer)
      ensures fresh(newBridge) && newBridge.Valid() && newBridge.participants == config.participants
      ensures newBridge.routes == GetRoutesConfig(config, topic)
      ensures newBridge.enabled == enableIt && newBridge.writers.Keys == FirstWriters(config, topic, discoverer)
    {
      hide DdsBridge.Valid;
      newBridge := new DdsBridge(config.participants, GetRoutesConfig(config, topic),
                                 config.removeUnusedEntities, discoverer);
      if enableIt {
        newBridge.Enable();
      }
    }

    /** Nothing but one bridge's own state has changed. */
    twostate lemma OneBridgeChanged(topic: DdsTopic)
      requires old(ValidBridges()) && topic in bridges && ValidBridge(topic)
      requires bridges == old(bridges) && repr == old(repr) && currentTopics == old(currentTopics)
      requires forall b :: b in repr && b != bridges[topic] ==> unchanged(b)
      ensures ValidBridges()
      ensures BridgeViews() == old(BridgeViews())[topic := Bridge(bridges[topic].enabled, bridges[topic].writers.Keys)]
    {
      hide DdsBridge.Valid;
      forall t | t in bridges && t != topic ensures unchanged(bridges[t]) && ValidBridge(t) {
        assert old(ValidBridge(t));
      }
    }

    lemma OwnBridge(topic: DdsTopic)
      requires ValidBridges() && topic in bridges
      ensures topic in currentTopics && bridges[topic] in repr
    {
    }

    method EnableBridge(topic: DdsTopic, enableIt: bool)
      requires Valid() && topic in bridges
      modifies bridges[topic]
      ensures Valid()
      ensures BridgeViews() == old(BridgeViews())[topic := old(BridgeViews())[topic].(enabled := enableIt)]
    {
      hide DdsBridge.Valid, ValidConfiguration;
      assert ValidBridge(topic);
      if enableIt {
        bridges[topic].Enable();
      } else {
        bridges[topic].Disable();
      }
      OneBridgeChanged(topic);
    }

    method CreateWriterOf(topic: DdsTopic, id: ParticipantId)
      requires Valid() && topic in bridges && id in config.participants
      modifies bridges[topic]
      ensures Valid()
      ensures var was := old(BridgeViews())[topic];
              BridgeViews() == old(BridgeViews())[topic := was.(writers := was.writers + {id})]
    {
      hide DdsBridge.Valid, ValidConfiguration;
      assert ValidBridge(topic);
      bridges[topic].CreateWriter(id);
      OneBridgeChanged(topic);
      assert bridges[topic].writers.Keys == old(bridges[topic].writers.Keys) + {id};
    }

    method RemoveWriterOf(topic: DdsTopic, id: ParticipantId)
      requires Valid() && topic in bridges
      modifies bridges[topic]
      ensures Valid()
      ensures var was := old(BridgeViews())[topic];
              BridgeViews() == old(BridgeViews())[topic := was.(writers := was.writers - {id})]
    {
      hide DdsBridge.Valid, ValidConfiguration;
      assert ValidBridge(topic);
      bridges[topic].RemoveWriter(id);
      OneBridgeChanged(topic);
      assert bridges[topic].writers.Keys == old(bridges[topic].writers.Keys) - {id};
    }

    /** Something else than the bridges has changed. */
    twostate lemma BridgesUntouched()
      requires old(ValidBridges()) && bridges == old(bridges) && repr == old(repr)
      requires old(currentTopics).Keys <= currentTopics.Keys
      requires forall b :: b in repr ==> unchanged(b)
      ensures ValidBridges() && BridgeViews() == old(BridgeViews())
    {
      hide DdsBridge.Valid, GetRoutesConfig;
      forall t | t in bridges ensures unchanged(bridges[t]) && ValidBridge(t) {
        assert old(ValidBridge(t));
      }
    }

    /** Marks a known topic; its bridge is left alone. */
    method SetActive(topic: DdsTopic, active: bool)
      requires Valid() && topic in currentTopics
      modifies this`currentTopics
      ensures Valid() && BridgeViews() == old(BridgeViews())
      ensures currentTopics == old(currentTopics)[topic := old(currentTopics)[topic].(active := active)]
    {
      hide ValidBridges, BridgeViews, ValidConfiguration;
      currentTopics := currentTopics[topic := currentTopics[topic].(active := active)];
      BridgesUntouched();
    }

    method LearnTopic(topic: DdsTopic, discoverer: ParticipantId)
      requires Valid() && topic !in currentTopics && CanWrite(discoverer)
      modifies this`currentTopics
      ensures Valid() && BridgeViews() == old(BridgeViews())
      ensures currentTopics == old(currentTopics)[topic := KnownTopic(discoverer, false)]
    {
      hide ValidBridges, BridgeViews, ValidConfiguration;
      currentTopics := currentTopics[topic := KnownTopic(discoverer, false)];
      BridgesUntouched();
    }

    // ----- One topic at a time

    method ActivateTopic(topic: DdsTopic, discoverer: ParticipantId)
      requires Valid() && topic in currentTopics && CanWrite(discoverer)
      modifies this`currentTopics, this`bridges, this`repr, repr
      ensures Valid() && fresh(repr - old(repr))
      ensures View() == PipeModel.ActivateTopic(config, old(View()), topic, discoverer)
    {
      hide ValidBridges, BridgeViews, FirstWriters, ValidConfiguration;
      SetActive(topic, true);
      if topic !in bridges {
        CreateNewBridge(topic, discoverer, true);
      } else {
        OwnBridge(topic);
        EnableBridge(topic, true);
      }
    }

    method DeactivateTopic(topic: DdsTopic)
      requires Valid() && topic in currentTopics
      modifies this`currentTopics, repr
      ensures Valid()
      ensures View() == PipeModel.DeactivateTopic(old(View()), topic)
    {
      hide ValidBridges, BridgeViews, ValidConfiguration;
      SetActive(topic, false);
      if topic in bridges {
        OwnBridge(topic);
        EnableBridge(topic, false);
      }
    }

    method DiscoveredTopic(topic: DdsTopic, discoverer: ParticipantId)
      requires Valid() && CanWrite(discoverer)
      modifies this`currentTopics, this`bridges, this`repr, repr
      ensures Valid() && fresh(repr - old(repr))
      ensures View() == DiscoverTopic(config, old(View()), topic, discoverer)
    {
      hide ValidBridges, BridgeViews, FirstWriters, ValidConfiguration, Allows, PipeModel.ActivateTopic;
      if topic !in bridges {
        if topic !in currentTopics {
          LearnTopic(topic, discoverer);
        }
        var allowed := allowedTopics.IsTopicAllowed(topic);
        if enabled && allowed {
          ActivateTopic(topic, discoverer);
        }
      } else if config.removeUnusedEntities && discoverer != DEFAULT_PARTICIPANT_ID {
        OwnBridge(topic);
        CreateWriterOf(topic, discoverer);
      }
    }

    // ----- Callbacks of the discovery database

    method IsRelevant(endpoint: Endpoint) returns (relevant: bool)
      ensures relevant == IsEndpointRelevant(config, database.entities, endpoint)
    {
      if !IsEndpointKindRelevant(config, endpoint) {
        return false;
      }
      var relevantEndpoints := database.GetEndpoints(other => SharesWriter(config, endpoint, other));
      assert relevantEndpoints == Sharing(config, database.entities, endpoint);
      if endpoint.active {
        relevant := |relevantEndpoints| == 1 && endpoint.guid in relevantEndpoints;
        OneKey(relevantEndpoints, endpoint.guid);
      } else {
        relevant := |relevantEndpoints| == 0;
        assert relevant <==> relevantEndpoints.Keys == {};
      }
    }

    method DiscoveredEndpoint(endpoint: Endpoint)
      requires Valid() && CanWrite(endpoint.discoverer)
      modifies this`currentTopics, this`bridges, this`repr, repr
      ensures Valid() && fresh(repr - old(repr))
      ensures View() == EndpointDiscovered(config, database.entities, old(View()), endpoint)
    {
      hide ValidBridges, BridgeViews, ValidConfiguration, IsEndpointRelevant, DiscoverTopic;
      if !config.isServiceTopic(endpoint.topic) {
        var relevant := IsRelevant(endpoint);
        if relevant {
          DiscoveredTopic(endpoint.topic, endpoint.discoverer);
        }
      }
    }

    method RemovedEndpoint(endpoint: Endpoint)
      requires Valid()
      modifies this`currentTopics, this`bridges, this`repr, repr
      ensures Valid() && fresh(repr - old(repr))
      ensures View() == EndpointRemoved(config, database.entities, old(View()), endpoint)
    {
      hide ValidBridges, BridgeViews, ValidConfiguration, IsEndpointRelevant;
      if !config.isServiceTopic(endpoint.topic) && config.removeUnusedEntities {
        var relevant := IsRelevant(endpoint);
        if relevant && endpoint.topic in bridges && endpoint.discoverer != DEFAULT_PARTICIPANT_ID {
          OwnBridge(endpoint.topic);
          RemoveWriterOf(endpoint.topic, endpoint.discoverer);
        }
      }
    }

    method UpdatedEndpoint(endpoint: Endpoint)
      requires Valid() && CanWrite(endpoint.discoverer)
      modifies this`currentTopics, this`bridges, this`repr, repr
      ensures Valid() && fresh(repr - old(repr))
      ensures View() == EndpointUpdated(config, database.entities, old(View()), endpoint)
    {
      hide ValidBridges, BridgeViews, ValidConfiguration, EndpointDiscovered, EndpointRemoved;
      if config.isServiceTopic(endpoint.topic) {
        return;
      }
      if endpoint.active {
        DiscoveredEndpoint(endpoint);
      } else {
        RemovedEndpoint(endpoint);
      }
    }

    /** The callbacks the pipe registered with the database, run for one outcome. */
    method Notify(outcome: Outcome)
      requires Valid()
      requires outcome.Added? || outcome.Updated? || outcome.Erased? ==> CanWrite(outcome.e.discoverer)
      modifies this`currentTopics, this`bridges, this`repr, repr
      ensures Valid() && fresh(repr - old(repr))
      ensures View() == Notified(config, database.entities, old(View()), outcome)
    {
      hide ValidBridges, BridgeViews, ValidConfiguration, EndpointDiscovered, EndpointRemoved, EndpointUpdated;
      match outcome
      case Added(e) => DiscoveredEndpoint(e);
      case Updated(e) => UpdatedEndpoint(e);
      case Erased(e) => RemovedEndpoint(e);
      case Inconsistent =>
      case Silent =>
    }

    // ----- The history

    ghost method StartHistory()
      requires Valid()
      modifies this`start, this`history
      ensures Traced() && View() == old(View()) && history == [] && start == System(database.entities, View())
    {
      hide ValidBridges, BridgeViews, ValidConfiguration;
      start, history := System(database.entities, View()), [];
      BridgesUntouched();
    }

    ghost method Log(ops: seq<Op>)
      requires Valid()
      modifies this`history
      ensures Valid() && View() == old(View()) && history == old(history) + ops
    {
      hide ValidBridges, BridgeViews, ValidConfiguration;
      history := history + ops;
      BridgesUntouched();
    }

    // ----- Enable, disable, reload

    method SetEnabled(enableIt: bool)
      requires Valid()
      modifies this`enabled
      ensures Valid() && View() == old(View()).(enabled := enableIt)
    {
      hide ValidBridges, BridgeViews, ValidConfiguration;
      enabled := enableIt;
      BridgesUntouched();
    }

    method SetLists(newLists: AllowedTopicList<DdsFilter, DdsTopic>)
      requires Valid() && newLists.filters == config.filters
      modifies this`allowedTopics
      ensures Valid() && allowedTopics == newLists
      ensures View() == old(View()).(lists := Lists(newLists.allowlist, newLists.blocklist))
    {
      hide ValidBridges, BridgeViews, ValidConfiguration;
      allowedTopics := newLists;
      BridgesUntouched();
    }

    method Enable() returns (ok: bool)
      requires Valid()
      modifies this, repr
      ensures Valid() && fresh(repr - old(repr)) && allowedTopics == old(allowedTopics)
      ensures ok == !old(enabled) && View() == PipeModel.Enable(config, old(View()))
      ensures start == old(start) && history == old(history) + [EnablePipe] && (old(Traced()) ==> Traced())
    {
      hide ValidBridges, BridgeViews, ValidConfiguration, Allows, ActivateTopics, Ran;
      RanOneMore(config, start, history, EnablePipe);
      ok := !enabled;
      if !enabled {
        SetEnabled(true);
        ActivateAllTopics();
      }
      Log([EnablePipe]);
    }

    method ActivateAllTopics()
      requires Valid()
      modifies this`currentTopics, this`bridges, this`repr, repr
      ensures Valid() && fresh(repr - old(repr))
      ensures View() == ActivateTopics(config, old(View()),
                                       AllowedAmong(config, old(View()).lists, old(currentTopics).Keys))
    {
      hide ValidBridges, BridgeViews, ValidConfiguration, Allows, ActivateTopics, PipeModel.ActivateTopic, AllowedAmong;
      var topics := currentTopics.Keys;
      ghost var start, done := View(), {};
      ActivateNone(config, start);
      NoneAllowedAmongNone(config, start.lists);
      while topics != {}
        invariant Valid() && fresh(repr - old(repr))
        invariant topics <= start.current.Keys && done == start.current.Keys - topics
        invariant View() == ActivateTopics(config, start, AllowedAmong(config, start.lists, done))
        decreases topics
      {
        var topic :| topic in topics;
        ActivateOneMore(config, start, AllowedAmong(config, start.lists, done), topic);
        AllowedAmongOneMore(config, start.lists, done, topic);
        var allowed := allowedTopics.IsTopicAllowed(topic);
        if allowed {
          ActivateTopic(topic, currentTopics[topic].discoverer);
        }
        done := done + {topic};
        topics := topics - {topic};
      }
      assert done == old(currentTopics).Keys;
    }

    method Disable() returns (ok: bool)
      requires Valid()
      modifies this, repr
      ensures Valid() && repr == old(repr) && bridges == old(bridges) && allowedTopics == old(allowedTopics)
      ensures ok == old(enabled) && View() == PipeModel.Disable(old(View()))
      ensures start == old(start) && history == old(history) + [DisablePipe] && (old(Traced()) ==> Traced())
    {
      hide ValidBridges, BridgeViews, ValidConfiguration, DeactivateTopics, Ran;
      RanOneMore(config, start, history, DisablePipe);
      ok := enabled;
      if enabled {
        SetEnabled(false);
        DeactivateAllTopics();
      }
      Log([DisablePipe]);
    }

    method DeactivateAllTopics()
      requires Valid()
      modifies this`currentTopics, repr
      ensures Valid() && View() == DeactivateTopics(old(View()), old(currentTopics).Keys)
    {
      hide ValidBridges, BridgeViews, ValidConfiguration, DeactivateTopics, PipeModel.DeactivateTopic;
      var topics := currentTopics.Keys;
      ghost var start, deactivated := View(), {};
      DeactivateNone(config, start);
      while topics != {}
        invariant Valid() && topics <= start.current.Keys
        invariant deactivated == start.current.Keys - topics
        invariant View() == DeactivateTopics(start, deactivated)
        decreases topics
      {
        var topic :| topic in topics;
        DeactivateOneMore(config, start, deactivated, topic);
        DeactivateTopic(topic);
        deactivated := deactivated + {topic};
        topics := topics - {topic};
      }
      assert deactivated == old(currentTopics).Keys;
    }

    /** False if the new lists are the ones in use. */
    method ReloadAllowedTopics(newLists: AllowedTopicList<DdsFilter, DdsTopic>) returns (changed: bool)
      requires Valid() && newLists.filters == config.filters
      modifies this, repr
      ensures Valid() && fresh(repr - old(repr))
      ensures var lists := Lists(newLists.allowlist, newLists.blocklist);
              && changed == (lists != old(View()).lists) && View() == Reload(config, old(View()), lists)
              && View().lists == lists && enabled == old(enabled) && currentTopics.Keys == old(currentTopics).Keys
              && history == old(history) + [ReloadLists(lists)]
      ensures start == old(start) && (old(Traced()) ==> Traced())
    {
      hide ValidBridges, BridgeViews, ValidConfiguration, Realigned, Ran;
      ghost var op := ReloadLists(Lists(newLists.allowlist, newLists.blocklist));
      RanOneMore(config, start, history, op);
      ReloadLoads(config, View(), op.lists);
      changed := newLists.allowlist != allowedTopics.allowlist || newLists.blocklist != allowedTopics.blocklist;
      if changed {
        SetLists(newLists);
        if enabled {
          ApplyLists();
        }
      }
      Log([op]);
    }

    method ReloadTopic(topic: DdsTopic)
      requires Valid() && topic in currentTopics
      modifies this`currentTopics, this`bridges, this`repr, repr
      ensures Valid() && fresh(repr - old(repr))
      ensures var was := old(View());
              var active, allowed := was.current[topic].active, Allowed(config, was.lists, topic);
              View() == if active && !allowed then PipeModel.DeactivateTopic(was, topic)
                        else if !active && allowed then
                          PipeModel.ActivateTopic(config, was, topic, was.current[topic].discoverer)
                        else was
    {
      hide ValidBridges, BridgeViews, ValidConfiguration, Allows, PipeModel.ActivateTopic, PipeModel.DeactivateTopic;
      var allowed := allowedTopics.IsTopicAllowed(topic);
      if currentTopics[topic].active {
        if !allowed {
          DeactivateTopic(topic);
        }
      } else if allowed {
        ActivateTopic(topic, currentTopics[topic].discoverer);
      }
    }

    /** The loop of the reload: each known topic is activated or deactivated if the lists say so. */
    method ApplyLists()
      requires Valid()
      modifies this`currentTopics, this`bridges, this`repr, repr
      ensures Valid() && fresh(repr - old(repr))
      ensures View() == Realigned(config, old(View()), old(currentTopics).Keys)
    {
      hide ValidBridges, BridgeViews, ValidConfiguration, Allows, Realigned,
        PipeModel.ActivateTopic, PipeModel.DeactivateTopic;
      var topics := currentTopics.Keys;
      ghost var start, done := View(), {};
      RealignNone(config, start);
      while topics != {}
        invariant Valid() && fresh(repr - old(repr)) && topics <= start.current.Keys
        invariant done == start.current.Keys - topics && View() == Realigned(config, start, done)
        decreases topics
      {
        var topic :| topic in topics;
        RealignOneMore(config, start, done, topic);
        ReloadTopic(topic);
        done := done + {topic};
        topics := topics - {topic};
      }
      assert done == old(currentTopics).Keys;
    }

    /** An invalid configuration is refused; of a valid one only the lists are taken over. */
    method ReloadConfiguration(newConfig: Configuration, allow: set<DdsFilter>, block: set<DdsFilter>)
      returns (accepted: bool, changed: bool, ghost lists: Lists)
      requires Valid() && Transitive(config.filters) && SoundFor(config.filters)
      modifies this, repr
      ensures Valid() && fresh(repr - old(repr))
      ensures accepted <==> ValidConfiguration(newConfig)
      ensures !accepted ==> View() == old(View())
      ensures accepted ==>
                && IsReduction(config.filters, allow, lists.allow) && IsReduction(config.filters, block, lists.block)
                && changed == (lists != old(View()).lists) && View() == Reload(config, old(View()), lists)
      ensures start == old(start) && (old(Traced()) ==> Traced())
      ensures history == old(history) + if accepted then [ReloadLists(lists)] else []
    {
      hide ValidBridges, BridgeViews, ValidConfiguration, IsReduction, Transitive, SoundFor, Allows, Reload, Ran;
      changed, lists := false, Lists({}, {});
      accepted := DdsPipeConfigurations.IsValid(newConfig);
      if accepted {
        var newLists := new AllowedTopicList(config.filters, allow, block);
        lists := Lists(newLists.allowlist, newLists.blocklist);
        changed := ReloadAllowedTopics(newLists);
      }
    }

    /** Builtin topics are bridged from the start, disabled and with all their writers. */
    method InitBridges(builtinTopics: set<DdsTopic>)
      requires Valid() && !enabled && currentTopics == map[] && bridges == map[]
      modifies this`currentTopics, this`bridges, this`repr, repr
      ensures Valid() && fresh(repr - old(repr))
      ensures currentTopics.Keys == builtinTopics && BridgeViews().Keys == builtinTopics
      ensures forall t :: t in builtinTopics ==> BridgedDisabled(View(), t)
    {
      hide ValidBridges, BridgeViews, ValidConfiguration, Allows, AllDestinations;
      var topics := builtinTopics;
      while topics != {}
        invariant Valid() && fresh(repr - old(repr)) && topics <= builtinTopics
        invariant currentTopics.Keys == builtinTopics - topics && BridgeViews().Keys == builtinTopics - topics
        invariant forall t :: t in builtinTopics - topics ==> BridgedDisabled(View(), t)
        decreases topics
      {
        var topic :| topic in topics;
        DiscoveredTopic(topic, DEFAULT_PARTICIPANT_ID);
        CreateNewBridge(topic, DEFAULT_PARTICIPANT_ID, false);
        topics := topics - {topic};
      }
    }

    /** Known, not active, and bridged with a writer for every destination. */
    ghost predicate BridgedDisabled(pipe: Pipe, t: DdsTopic) {
      && t in pipe.current && pipe.current[t] == KnownTopic(DEFAULT_PARTICIPANT_ID, false)
      && t in pipe.bridges
      && pipe.bridges[t] == Bridge(false, AllDestinations(config.participants, GetRoutesConfig(config, t)))
    }

    /** The source's constructor: null where it throws because the configuration is not valid. */
    static method Create(
      config: Configuration, database: DiscoveryDatabase, allow: set<DdsFilter>, block: set<DdsFilter>,
      builtinTopics: set<DdsTopic>, initEnabled: bool)
      returns (pipe: DdsPipe?)
      requires Transitive(config.filters) && SoundFor(config.filters)
      ensures pipe == null <==> !ValidConfiguration(config)
      ensures pipe != null ==>
                && fresh(pipe) && pipe.Valid() && pipe.config == config && pipe.database == database
                && pipe.enabled == initEnabled && pipe.currentTopics.Keys == builtinTopics
                && ActivationInv(config, pipe.View()) && pipe.Traced()
                && pipe.history == (if initEnabled then [EnablePipe] else [])
                && pipe.start.entities == database.entities && !pipe.start.pipe.enabled
                && pipe.start.pipe.current.Keys == builtinTopics && ActivationInv(config, pipe.start.pipe)
                && (forall t :: t in builtinTopics ==> pipe.BridgedDisabled(pipe.start.pipe, t))
                && pipe.start.pipe.bridges.Keys == builtinTopics
                && IsReduction(config.filters, allow, pipe.start.pipe.lists.allow)
                && IsReduction(config.filters, block, pipe.start.pipe.lists.block)
    {
      var valid := DdsPipeConfigurations.IsValid(config);
      if !valid {
        return null;
      }
      hide ValidConfiguration, Transitive, SoundFor, IsReduction, Allows, DdsPipe.ValidBridges, DdsPipe.BridgeViews,
           DdsPipe.BridgedDisabled, ActivationInv, PipeModel.Enable, Ran;
      pipe := new DdsPipe(config, database, allow, block);
      pipe.InitBridges(builtinTopics);
      BuiltinsAreInactive(pipe);
      pipe.StartHistory();
      if initEnabled {
        EnableKeepsActivation(config, pipe.View());
        EnableKeepsTopics(config, pipe.View());
        var _ := pipe.Enable();
      }
    }

    /** The processing thread's visit to the database: the queued operations, each with its callbacks. */
    method ProcessQueue()
      requires Valid() && database.Valid() && database.foreground == []
      requires forall k :: 0 <= k < |database.background| ==> CanWrite(database.background[k].endpoint.discoverer)
      modifies this`currentTopics, this`bridges, this`repr, this`history, repr, database
      ensures Valid() && fresh(repr - old(repr)) && database.Valid() && database.foreground == []
      ensures history == old(history) + InDatabase(old(database.background)) && (old(Traced()) ==> Traced())
      ensures System(database.entities, View())
           == Ran(config, old(System(database.entities, View())), InDatabase(old(database.background)))
    {
      hide ValidBridges, BridgeViews, ValidConfiguration, Notified, OutcomeOf,
        Applied, DiscoveryDatabase.Valid, Ran, InDatabase;
      ghost var queued, done, start := database.background, 0, System(database.entities, View());
      NoOperationYet(config, start, queued);
      database.Swap();
      while database.foreground != []
        invariant Valid() && fresh(repr - old(repr)) && database.Valid() && history == old(history)
        invariant 0 <= done <= |queued| && database.foreground == queued[done..]
        invariant System(database.entities, View()) == Ran(config, start, InDatabase(queued[..done]))
        decreases |database.foreground|
      {
        OutcomeCarriesEndpoint(database.entities, queued[done]);
        OneOperationMore(config, start, queued, done);
        var outcome := database.ProcessFront();
        Notify(outcome);
        done := done + 1;
      }
      assert queued[..done] == queued;
      RanSplits(config, this.start, history, InDatabase(queued));
      Log(InDatabase(queued));
    }
  }

  function InDatabase(ops: seq<Operation>): (all: seq<Op>)
    ensures |all| == |ops| && forall k :: 0 <= k < |ops| ==> all[k] == DatabaseOp(ops[k])
  {
    seq(|ops|, k requires 0 <= k < |ops| => DatabaseOp(ops[k]))
  }

  lemma RanOneMore(config: Configuration, s: System, ops: seq<Op>, op: Op)
    ensures Ran(config, s, ops + [op]) == Next(config, Ran(config, s, ops), op)
  {
    assert (ops + [op])[..|ops|] == ops;
    hide Next;
  }

  lemma {:induction false} RanSplits(config: Configuration, s: System, before: seq<Op>, after: seq<Op>)
    ensures Ran(config, s, before + after) == Ran(config, Ran(config, s, before), after)
    decreases |after|
  {
    hide Next;
    if after == [] {
      assert before + after == before;
    } else {
      var n := |after| - 1;
      RanSplits(config, s, before, after[..n]);
      RanOneMore(config, s, before + after[..n], after[n]);
      RanOneMore(config, Ran(config, s, before), after[..n], after[n]);
      assert before + after == (before + after[..n]) + [after[n]] && after == after[..n] + [after[n]];
    }
  }

  lemma OutcomeCarriesEndpoint(entities: Entities, op: Operation)
    ensures var o := OutcomeOf(entities, op); o.Added? || o.Updated? || o.Erased? ==> o.e == op.endpoint
  {
  }

  lemma NoOperationYet(config: Configuration, s: System, ops: seq<Operation>)
    ensures Ran(config, s, InDatabase(ops[..0])) == s
  {
  }

  lemma OneOperationMore(config: Configuration, s: System, ops: seq<Operation>, k: nat)
    requires k < |ops|
    ensures ops[..k + 1] <= ops
    ensures var before := Ran(config, s, InDatabase(ops[..k]));
            var entities := Applied(before.entities, ops[k]);
            Ran(config, s, InDatabase(ops[..k + 1]))
            == System(entities, Notified(config, entities, before.pipe, OutcomeOf(before.entities, ops[k])))
  {
    var longer := InDatabase(ops[..k + 1]);
    assert longer[..|longer| - 1] == InDatabase(ops[..k]);
    hide Applied, Notified, OutcomeOf;
  }

  lemma EnableKeepsTopics(config: Configuration, pipe: Pipe)
    ensures PipeModel.Enable(config, pipe).current.Keys == pipe.current.Keys && PipeModel.Enable(config, pipe).enabled
  {
    hide Allowed;
  }

  lemma ReloadLoads(config: Configuration, pipe: Pipe, lists: Lists)
    ensures var after := Reload(config, pipe, lists);
            after.lists == lists && after.enabled == pipe.enabled && after.current.Keys == pipe.current.Keys
  {
    hide Allowed;
  }

  lemma NoneAllowedAmongNone(config: Configuration, lists: Lists)
    ensures AllowedAmong(config, lists, {}) == {}
  {
  }

  lemma AllowedAmongOneMore(config: Configuration, lists: Lists, topics: set<DdsTopic>, t: DdsTopic)
    ensures AllowedAmong(config, lists, topics + {t})
         == if Allowed(config, lists, t) then AllowedAmong(config, lists, topics) + {t}
            else AllowedAmong(config, lists, topics)
  {
    hide Allowed;
  }

  /** What the constructor leaves: every builtin topic known and bridged, nothing active yet. */
  lemma BuiltinsAreInactive(pipe: DdsPipe)
    requires pipe.ValidBridges() && !pipe.enabled && pipe.View().current.Keys == pipe.View().bridges.Keys
    requires forall t :: t in pipe.currentTopics ==> pipe.BridgedDisabled(pipe.View(), t)
    ensures ActivationInv(pipe.config, pipe.View())
  {
    hide DdsPipe.ValidBridges, DdsPipe.BridgeViews, AllDestinations, Allowed;
    assert forall t :: t in pipe.View().current ==> pipe.BridgedDisabled(pipe.View(), t);
  }

  lemma ActivateNone(config: Configuration, pipe: Pipe)
    ensures ActivateTopics(config, pipe, {}) == pipe
  {
  }

  lemma DeactivateNone(config: Configuration, pipe: Pipe)
    ensures DeactivateTopics(pipe, {}) == pipe
  {
  }

  lemma ActivateOneMore(config: Configuration, pipe: Pipe, topics: set<DdsTopic>, t: DdsTopic)
    requires topics <= pipe.current.Keys && t in pipe.current && t !in topics
    ensures var before := ActivateTopics(config, pipe, topics);
            && before.lists == pipe.lists && before.current.Keys == pipe.current.Keys
            && before.current[t] == pipe.current[t]
            && PipeModel.ActivateTopic(config, before, t, pipe.current[t].discoverer)
               == ActivateTopics(config, pipe, topics + {t})
  {
    hide FirstWriters;
  }

  lemma DeactivateOneMore(config: Configuration, pipe: Pipe, topics: set<DdsTopic>, t: DdsTopic)
    requires topics <= pipe.current.Keys && t in pipe.current && t !in topics
    ensures var before := DeactivateTopics(pipe, topics);
            && before.lists == pipe.lists && before.current.Keys == pipe.current.Keys
            && before.current[t] == pipe.current[t]
            && PipeModel.DeactivateTopic(before, t) == DeactivateTopics(pipe, topics + {t})
  {
  }

  lemma DeactivateAside(config: Configuration, pipe: Pipe, topics: set<DdsTopic>, t: DdsTopic)
    requires topics <= pipe.current.Keys && t in pipe.current && t !in topics
    ensures topics <= PipeModel.DeactivateTopic(pipe, t).current.Keys
    ensures PipeModel.DeactivateTopic(ActivateTopics(config, pipe, topics), t)
         == ActivateTopics(config, PipeModel.DeactivateTopic(pipe, t), topics)
  {
    DeactivateAsideTopics(config, pipe, topics, t);
    DeactivateAsideBridges(config, pipe, topics, t);
    ActivateChangesOnly(config, PipeModel.DeactivateTopic(pipe, t), topics);
    ActivateChangesOnly(config, pipe, topics);
    hide ActivateTopics;
  }

  lemma ActivateChangesOnly(config: Configuration, pipe: Pipe, topics: set<DdsTopic>)
    requires topics <= pipe.current.Keys
    ensures var after := ActivateTopics(config, pipe, topics);
            after == pipe.(current := after.current, bridges := after.bridges)
  {
    hide FirstWriters;
  }

  lemma DeactivateAsideTopics(config: Configuration, pipe: Pipe, topics: set<DdsTopic>, t: DdsTopic)
    requires topics <= pipe.current.Keys && t in pipe.current && t !in topics
    ensures PipeModel.DeactivateTopic(ActivateTopics(config, pipe, topics), t).current
         == ActivateTopics(config, PipeModel.DeactivateTopic(pipe, t), topics).current
  {
    hide FirstWriters;
  }

  lemma DeactivateAsideBridges(config: Configuration, pipe: Pipe, topics: set<DdsTopic>, t: DdsTopic)
    requires topics <= pipe.current.Keys && t in pipe.current && t !in topics
    ensures PipeModel.DeactivateTopic(ActivateTopics(config, pipe, topics), t).bridges
         == ActivateTopics(config, PipeModel.DeactivateTopic(pipe, t), topics).bridges
  {
    hide FirstWriters;
  }

  lemma RealignNone(config: Configuration, pipe: Pipe)
    ensures Realigned(config, pipe, {}) == pipe
  {
    ActivateNone(config, pipe);
    DeactivateNone(config, pipe);
    hide ActivateTopics, DeactivateTopics, Allowed;
    assert Blocked(config, pipe, {}) == {} && Admitted(config, pipe, {}) == {};
  }

  /** Realigning one more topic is what the body of the reload loop does to it. */
  lemma RealignOneMore(config: Configuration, pipe: Pipe, done: set<DdsTopic>, t: DdsTopic)
    requires done <= pipe.current.Keys && t in pipe.current && t !in done
    ensures var before, allowed := Realigned(config, pipe, done), Allowed(config, pipe.lists, t);
            && before.lists == pipe.lists && before.current.Keys == pipe.current.Keys
            && before.current[t] == pipe.current[t]
            && Realigned(config, pipe, done + {t})
               == if pipe.current[t].active && !allowed then PipeModel.DeactivateTopic(before, t)
                  else if !pipe.current[t].active && allowed then
                    PipeModel.ActivateTopic(config, before, t, pipe.current[t].discoverer)
                  else before
  {
    hide ActivateTopics, DeactivateTopics, PipeModel.ActivateTopic, PipeModel.DeactivateTopic,
      Allowed, Blocked, Admitted;
    SetsOneMore(config, pipe, done, t);
    EditOneMore(config, pipe, Blocked(config, pipe, done), Admitted(config, pipe, done), t);
  }

  lemma SetsOneMore(config: Configuration, pipe: Pipe, done: set<DdsTopic>, t: DdsTopic)
    requires done <= pipe.current.Keys && t in pipe.current && t !in done
    ensures t !in Blocked(config, pipe, done) && t !in Admitted(config, pipe, done)
    ensures var allowed, active := Allowed(config, pipe.lists, t), pipe.current[t].active;
            && Blocked(config, pipe, done + {t})
               == (if active && !allowed then Blocked(config, pipe, done) + {t} else Blocked(config, pipe, done))
            && Admitted(config, pipe, done + {t})
               == (if !active && allowed then Admitted(config, pipe, done) + {t} else Admitted(config, pipe, done))
  {
    hide Allowed;
  }

  lemma EditOneMore(config: Configuration, pipe: Pipe, blocked: set<DdsTopic>, admitted: set<DdsTopic>, t: DdsTopic)
    requires blocked <= pipe.current.Keys && admitted <= pipe.current.Keys
    requires t in pipe.current && t !in blocked && t !in admitted
    ensures var before := ActivateTopics(config, DeactivateTopics(pipe, blocked), admitted);
            && before.lists == pipe.lists && before.current.Keys == pipe.current.Keys
            && before.current[t] == pipe.current[t]
            && PipeModel.ActivateTopic(config, before, t, pipe.current[t].discoverer)
               == ActivateTopics(config, DeactivateTopics(pipe, blocked), admitted + {t})
            && PipeModel.DeactivateTopic(before, t)
               == ActivateTopics(config, DeactivateTopics(pipe, blocked + {t}), admitted)
  {
    ActivateOneMore(config, DeactivateTopics(pipe, blocked), admitted, t);
    DeactivateOneMore(config, pipe, blocked, t);
    DeactivateAside(config, DeactivateTopics(pipe, blocked), admitted, t);
    hide FirstWriters, ActivateTopics, DeactivateTopics, PipeModel.ActivateTopic, PipeModel.DeactivateTopic;
  }

  lemma OneKey<K, V>(m: map<K, V>, k: K)
    ensures |m| == 1 && k in m <==> m.Keys == {k}
  {
    assert |m| == |m.Keys|;
    if |m| == 1 && k in m {
      assert |m.Keys - {k}| == 0;
    }
  }

  /** The routes that count for a topic: its own if it has some, whatever the generic ones say. */
  predicate RoutesCount(config: Configuration, t: DdsTopic, routes: Routes) {
    && (t in config.topicRoutes ==> routes == config.topicRoutes[t])
    && (t !in config.topicRoutes ==> routes == config.routes)
  }

  /**
   The purpose of it all.  When topic t is in step, the track of participant i in its bridge holds the
   writer of p exactly when i sends to p and p discovered an active reader of t.
   */
  lemma TracksFollowTheReaders(pipe: DdsPipe, t: DdsTopic, routes: Routes, i: ParticipantId, p: ParticipantId)
    requires pipe.Valid() && Sync(System(pipe.database.entities, pipe.View()), t)
    requires t in pipe.bridges && i in pipe.config.participants && RoutesCount(pipe.config, t, routes)
    ensures var tracks := pipe.bridges[t].tracks;
            i in tracks && p in tracks[i].writers <==>
              && p in Destinations(routes, pipe.config.participants, i)
              && HasActiveReader(pipe.database.entities, t, p)
    ensures i in pipe.bridges[t].tracks ==> pipe.bridges[t].tracks[i].enabled == pipe.bridges[t].enabled
  {
    var bridge := pipe.bridges[t];
    assert pipe.ValidBridge(t) && bridge.routes == routes;
    assert p in WritersOf(pipe.View(), t) <==> p in bridge.writers;
    assert IsTrackOf(bridge.tracks, i, bridge.enabled, Due(bridge.participants, bridge.routes, bridge.writers, i));
    var due := Due(bridge.participants, bridge.routes, bridge.writers, i);
    assert p in due <==> p in bridge.writers && p in Destinations(bridge.routes, bridge.participants, i);
    assert p in WritersOf(pipe.View(), t) <==> HasActiveReader(pipe.database.entities, t, p);
  }

  /** As Create leaves it: the builtin topics are bridged, with all their writers. */
  ghost predicate StartsFull(pipe: DdsPipe)
    reads pipe
  {
    ActivationInv(pipe.config, pipe.start.pipe) && BridgesAreFull(pipe.config, pipe.start.pipe)
  }

  lemma CreatedPipesStartFull(pipe: DdsPipe)
    requires ActivationInv(pipe.config, pipe.start.pipe)
    requires forall t :: t in pipe.start.pipe.bridges ==> pipe.BridgedDisabled(pipe.start.pipe, t)
    ensures StartsFull(pipe)
  {
    hide AllDestinations, GetRoutesConfig, ActivationInv;
  }

  lemma FullBridgeLeavesNobodyOut(pipe: DdsPipe, t: DdsTopic, routes: Routes)
    requires pipe.Valid() && t in pipe.bridges && RoutesCount(pipe.config, t, routes)
    requires pipe.bridges[t].writers.Keys == AllDestinations(pipe.config.participants, routes)
    ensures LeavesNobodyOut(pipe.config.participants, routes, pipe.bridges[t].tracks)
    ensures forall i :: i in pipe.bridges[t].tracks ==>
              pipe.bridges[t].tracks[i].enabled == pipe.bridges[t].enabled
  {
    hide AllDestinations, LeavesNobodyOut, Due, ValidConfiguration, DdsPipe.CanWrite;
    var bridge := pipe.bridges[t];
    assert pipe.ValidBridge(t) && bridge.routes == routes;
    assert forall i ::
        IsTrackOf(bridge.tracks, i, bridge.enabled, Due(bridge.participants, routes, bridge.writers, i));
    AllWritersLeaveNobodyOut(bridge.participants, routes, bridge.tracks, bridge.enabled, bridge.writers);
    forall i | i in bridge.tracks ensures bridge.tracks[i].enabled == bridge.enabled {
      assert IsTrackOf(bridge.tracks, i, bridge.enabled, Due(bridge.participants, routes, bridge.writers, i));
    }
  }

  /** What the object shows of the bridge of t. */
  lemma ViewOfBridge(pipe: DdsPipe, t: DdsTopic, routes: Routes)
    requires pipe.Valid() && t in pipe.bridges && RoutesCount(pipe.config, t, routes)
    requires BridgesAreFull(pipe.config, pipe.View())
    ensures pipe.bridges[t].writers.Keys == AllDestinations(pipe.config.participants, routes)
    ensures t in pipe.View().bridges && pipe.View().bridges[t].enabled == pipe.bridges[t].enabled
  {
    hide AllDestinations, DdsBridge.Valid, ValidConfiguration;
    assert pipe.View().bridges[t] == Bridge(pipe.bridges[t].enabled, pipe.bridges[t].writers.Keys);
  }

  /**
   Where unused entities are kept, and after whatever operations: the bridge of a topic leaves nobody out of the
   routes that count for the topic; an active topic has a bridge, and its tracks are enabled like the topic.
   */
  lemma BridgesLeaveNobodyOut(pipe: DdsPipe, t: DdsTopic, routes: Routes)
    requires pipe.Traced() && StartsFull(pipe) && !pipe.config.removeUnusedEntities
    requires RoutesCount(pipe.config, t, routes)
    ensures t in pipe.currentTopics && pipe.currentTopics[t].active ==> t in pipe.bridges
    ensures t in pipe.bridges ==>
              && LeavesNobodyOut(pipe.config.participants, routes, pipe.bridges[t].tracks)
              && t in pipe.currentTopics && forall i :: i in pipe.bridges[t].tracks ==>
                   pipe.bridges[t].tracks[i].enabled == pipe.currentTopics[t].active
  {
    hide Ran, Allowed, AllDestinations, LeavesNobodyOut, BridgesAreFull, DdsPipe.ValidBridges, DdsPipe.BridgeViews;
    RunKeepsFull(pipe.config, pipe.start, pipe.history);
    RunKeepsActivation(pipe.config, pipe.start, pipe.history);
    var view := pipe.View();
    assert ActivationInv(pipe.config, view) && view.current == pipe.currentTopics;
    if t in pipe.bridges {
      ViewOfBridge(pipe, t, routes);
      FullBridgeLeavesNobodyOut(pipe, t, routes);
    }
  }

  /**
   After whatever operations, a known topic is active exactly if the pipe was last enabled and the lists last
   loaded allow it.
   */
  lemma ActiveAsLastLoaded(pipe: DdsPipe, t: DdsTopic)
    requires pipe.Traced() && ActivationInv(pipe.config, pipe.start.pipe) && t in pipe.currentTopics
    ensures var lists := LatestLists(pipe.start.pipe.lists, pipe.history);
            && Lists(pipe.allowedTopics.allowlist, pipe.allowedTopics.blocklist) == lists
            && (pipe.currentTopics[t].active <==>
                  && LastEnabled(pipe.start.pipe.enabled, pipe.history)
                  && Allows(pipe.config.filters, lists.allow, lists.block, t))
  {
    ListsAreTheLatest(pipe.config, pipe.start, pipe.history);
    ActiveExactly(pipe.config, pipe.start, pipe.history, t);
    hide Ran, Allows, ActivationInv;
  }

  /** The pipe was created over an empty database, removes unused entities, and t is neither builtin nor a service. */
  ghost predicate CreatedFor(pipe: DdsPipe, t: DdsTopic)
    reads pipe
  {
    && pipe.start.entities == map[] && !pipe.start.pipe.enabled
    && t !in pipe.start.pipe.current && ActivationInv(pipe.config, pipe.start.pipe)
    && ValidConfiguration(pipe.config) && pipe.config.removeUnusedEntities && !pipe.config.isServiceTopic(t)
  }

  /** A topic that is allowed in a pipe just enabled starts in step. */
  lemma EnabledPipesStartInSync(pipe: DdsPipe, t: DdsTopic)
    requires CreatedFor(pipe, t) && Allowed(pipe.config, pipe.start.pipe.lists, t)
    ensures var s := Next(pipe.config, pipe.start, EnablePipe);
            Tracked(pipe.config, s, t) && Sync(s, t) && CanHost(pipe.config, s.pipe, t)
  {
    var config, start := pipe.config, pipe.start;
    assert Tracked(config, start, t) && t !in start.pipe.bridges;
    assert forall d :: !HasActiveReader(start.entities, t, d);
    StepKeepsTracked(config, start, EnablePipe, t);
    EnableSyncsExactly(config, start, t);
    hide Allowed, ActivationInv, HasActiveReader;
  }

  /**
   End to end.  A pipe is created and enabled, topic t is allowed, and since then it has gone through ordinary
   operations, in batches of the queue or by its user, as many as you like.  Then the track of participant i
   sends to p exactly when i's route leads to p and p has discovered an active reader of t.
   */
  lemma CreatedPipesFollowTheReaders(
    pipe: DdsPipe, t: DdsTopic, routes: Routes, i: ParticipantId, p: ParticipantId)
    requires pipe.Traced() && CreatedFor(pipe, t) && Allowed(pipe.config, pipe.start.pipe.lists, t)
    requires pipe.history != [] && pipe.history[0] == EnablePipe
    requires forall k :: 0 <= k < |pipe.history| ==> HasDiscoverer(pipe.history[k])
    requires AllOrdinary(pipe.config, Next(pipe.config, pipe.start, EnablePipe), pipe.history[1..], t)
    requires i in pipe.config.participants && RoutesCount(pipe.config, t, routes)
    ensures var sends := t in pipe.bridges && i in pipe.bridges[t].tracks && p in pipe.bridges[t].tracks[i].writers;
            sends <==> && p in Destinations(routes, pipe.config.participants, i)
                       && HasActiveReader(pipe.database.entities, t, p)
  {
    var config, first, rest := pipe.config, Next(pipe.config, pipe.start, EnablePipe), pipe.history[1..];
    EnabledPipesStartInSync(pipe, t);
    OrdinaryRunsStayInSync(config, first, rest, t);
    RanOneMore(config, pipe.start, [], EnablePipe);
    RanSplits(config, pipe.start, [EnablePipe], rest);
    assert [EnablePipe] + rest == pipe.history && [] + [EnablePipe] == [EnablePipe];
    assert Sync(System(pipe.database.entities, pipe.View()), t);
    if t in pipe.bridges {
      hide DdsPipe.Valid, Sync, HasActiveReader, Allowed, AllOrdinary;
      TracksFollowTheReaders(pipe, t, routes, i, p);
    } else {
      NoBridgeNoReader(System(pipe.database.entities, pipe.View()), t);
      hide HasActiveReader, Allowed, AllOrdinary;
    }
  }
}
