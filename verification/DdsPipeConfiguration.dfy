/** The part of the configuration that decides which topics are bridged, and between whom. */
module DdsPipeConfigurations {
  import opened DdsPipeTypes
  import opened RoutesConfiguration
  import opened AllowedTopics

  datatype DiscoveryTrigger = ReaderTrigger | WriterTrigger | AnyTrigger | NoneTrigger

  datatype DdsFilter = DdsFilter(topicName: string, typeName: string)

  /** The participants are those of the participants database the configuration is validated against. */
  datatype Configuration = Configuration(
    participants: Participants,
    routes: Routes,
    topicRoutes: map<DdsTopic, Routes>,
    removeUnusedEntities: bool,
    discoveryTrigger: DiscoveryTrigger,
    filters: Filters<DdsFilter, DdsTopic>,
    isServiceTopic: DdsTopic -> bool)

  predicate ValidConfiguration(config: Configuration) {
    && (config.removeUnusedEntities ==> config.discoveryTrigger.ReaderTrigger?)
    && ValidRoutes(config.routes, config.participants)
    && forall t :: t in config.topicRoutes ==> ValidRoutes(config.topicRoutes[t], config.participants)
  }

  method IsValid(config: Configuration) returns (valid: bool)
    ensures valid <==> ValidConfiguration(config)
    ensures !valid <==>
              || (config.removeUnusedEntities && config.discoveryTrigger != ReaderTrigger)
              || !ValidRoutes(config.routes, config.participants)
              || exists t :: t in config.topicRoutes && !ValidRoutes(config.topicRoutes[t], config.participants)
  {
    if config.removeUnusedEntities && !config.discoveryTrigger.ReaderTrigger? {
      return false;
    }
    var warned: set<ParticipantId>;
    valid, warned := RoutesConfiguration.IsValid(config.routes, config.participants);
    var topics := config.topicRoutes.Keys;
    while valid && topics != {}
      invariant topics <= config.topicRoutes.Keys
      invariant valid ==> ValidRoutes(config.routes, config.participants)
      invariant valid <==> && ValidRoutes(config.routes, config.participants)
                           && forall t :: t in config.topicRoutes && t !in topics ==>
                                            ValidRoutes(config.topicRoutes[t], config.participants)
      decreases topics
    {
      var topic :| topic in topics;
      valid, warned := RoutesConfiguration.IsValid(config.topicRoutes[topic], config.participants);
      topics := topics - {topic};
    }
  }

  /** A topic with routes of its own ignores the generic ones. */
  function GetRoutesConfig(config: Configuration, topic: DdsTopic): (routes: Routes)
    ensures ValidConfiguration(config) ==> ValidRoutes(routes, config.participants)
  {
    if topic in config.topicRoutes then config.topicRoutes[topic] else config.routes
  }
}
