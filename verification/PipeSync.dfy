/**
 How the incrementally edited writers of a bridge follow the database of endpoints.

 With remove-unused-entities, the bridge of a topic should have a writer in exactly the participants that
 discovered an active reader of it.  Here is, for each operation, exactly when it keeps that so.
 */
module PipeSync {
  import opened DdsPipeTypes
  import opened DdsPipeConfigurations
  import opened DiscoveryDatabases
  import opened PipeModel

  datatype System = System(entities: Entities, pipe: Pipe)

  datatype Op = DatabaseOp(op: Operation) | EnablePipe | DisablePipe | ReloadLists(lists: Lists)

  /** An operation of the database runs its callbacks before the next one is applied. */
  ghost function Next(config: Configuration, s: System, op: Op): System {
    match op
    case DatabaseOp(o) =>
      var entities := Applied(s.entities, o);
      System(entities, Notified(config, entities, s.pipe, OutcomeOf(s.entities, o)))
    case EnablePipe => s.(pipe := Enable(config, s.pipe))
    case DisablePipe => s.(pipe := Disable(s.pipe))
    case ReloadLists(lists) => s.(pipe := Reload(config, s.pipe, lists))
  }

  predicate ReaderOf(e: Endpoint, t: DdsTopic) {
    e.kind.Reader? && e.topic == t
  }

  predicate IsActiveReader(entities: Entities, g: Guid, t: DdsTopic, d: ParticipantId) {
    g in entities && entities[g].active && ReaderOf(entities[g], t) && entities[g].discoverer == d
  }

  ghost predicate HasActiveReader(entities: Entities, t: DdsTopic, d: ParticipantId) {
    exists g :: IsActiveReader(entities, g, t, d)
  }

  /** g is an active reader of t, and the only one its participant discovered. */
  ghost predicate IsLastReader(entities: Entities, g: Guid, t: DdsTopic) {
    && g in entities && IsActiveReader(entities, g, t, entities[g].discoverer)
    && forall h :: h != g ==> !IsActiveReader(entities, h, t, entities[g].discoverer)
  }

  function WritersOf(pipe: Pipe, t: DdsTopic): set<ParticipantId> {
    if t in pipe.bridges then pipe.bridges[t].writers else {}
  }

  ghost predicate Sync(s: System, t: DdsTopic) {
    forall d :: d in WritersOf(s.pipe, t) <==> HasActiveReader(s.entities, t, d)
  }

  /** t has a bridge, or gets one at the next discovery. */
  ghost predicate CanHost(config: Configuration, pipe: Pipe, t: DdsTopic) {
    t in pipe.bridges || (pipe.enabled && Allowed(config, pipe.lists, t))
  }

  /** The setting of every statement below: remove-unused-entities is on, t is neither a service nor builtin. */
  ghost predicate Tracked(config: Configuration, s: System, t: DdsTopic) {
    && ValidConfiguration(config) && config.removeUnusedEntities && !config.isServiceTopic(t)
    && ActivationInv(config, s.pipe) && KeyedByGuid(s.entities)
    && (t in s.pipe.current ==> s.pipe.current[t].discoverer != DEFAULT_PARTICIPANT_ID)
  }

  // ----- What a callback does to the writers of t

  lemma RelevantMeansEdge(config: Configuration, entities: Entities, e: Endpoint)
    requires config.discoveryTrigger.ReaderTrigger? && KeyedByGuid(entities)
    ensures IsEndpointRelevant(config, entities, e) <==>
              && e.kind.Reader?
              && (e.active ==> IsActiveReader(entities, e.guid, e.topic, e.discoverer))
              && forall g :: IsActiveReader(entities, g, e.topic, e.discoverer) ==> e.active && g == e.guid
  {
    var sharing := Sharing(config, entities, e);
    assert forall g :: g in sharing <==> IsActiveReader(entities, g, e.topic, e.discoverer);
    if e.active && IsEndpointRelevant(config, entities, e) {
      assert e.guid in sharing.Keys;
      assert forall g :: g in sharing ==> g in sharing.Keys;
    }
  }

  lemma DiscoveryAddsOneWriter(config: Configuration, pipe: Pipe, u: DdsTopic, d: ParticipantId, t: DdsTopic)
    requires config.removeUnusedEntities && d != DEFAULT_PARTICIPANT_ID
    ensures WritersOf(DiscoverTopic(config, pipe, u, d), t)
         == WritersOf(pipe, t) + if u == t && CanHost(config, pipe, t) then {d} else {}
  {
  }

  /** The writers of t after the callbacks of an outcome. */
  lemma WritersAfterCallback(config: Configuration, s: System, o: Operation, t: DdsTopic)
    requires Tracked(config, s, t) && o.endpoint.discoverer != DEFAULT_PARTICIPANT_ID
    ensures var e, next := o.endpoint, Next(config, s, DatabaseOp(o));
            var outcome := OutcomeOf(s.entities, o);
            var relevant := ReaderOf(e, t) && IsEndpointRelevant(config, next.entities, e);
            WritersOf(next.pipe, t)
            == if relevant && (outcome.Added? || (outcome.Updated? && e.active)) && CanHost(config, s.pipe, t) then
                 WritersOf(s.pipe, t) + {e.discoverer}
               else if relevant && (outcome.Erased? || (outcome.Updated? && !e.active)) then
                 WritersOf(s.pipe, t) - {e.discoverer}
               else WritersOf(s.pipe, t)
  {
    hide CanHost, DiscoverTopic, FirstWriters;
    DiscoveryAddsOneWriter(config, s.pipe, o.endpoint.topic, o.endpoint.discoverer, t);
  }

  // ----- Exactly when an operation keeps the writers in step

  /** A new reader needs a bridge to come to, or must be inactive where there is none. */
  ghost predicate AddKeepsUp(config: Configuration, s: System, e: Endpoint, t: DdsTopic) {
    ReaderOf(e, t) && !HasActiveReader(s.entities, t, e.discoverer) ==>
      if e.guid !in s.entities then e.active <==> CanHost(config, s.pipe, t)
      else e.active ==> s.entities[e.guid].active
  }

  /** A change of the last reader must be of its activity only, and a new reader needs a bridge. */
  ghost predicate UpdateKeepsUp(config: Configuration, s: System, e: Endpoint, t: DdsTopic) {
    e.guid in s.entities ==>
      && (IsLastReader(s.entities, e.guid, t) ==> ReaderOf(e, t) && e.discoverer == s.entities[e.guid].discoverer)
      && (ReaderOf(e, t) && e.active && !HasActiveReader(s.entities, t, e.discoverer) ==> CanHost(config, s.pipe, t))
  }

  /** The last reader must be erased as the inactive reader it has become. */
  ghost predicate EraseKeepsUp(s: System, e: Endpoint, t: DdsTopic) {
    IsLastReader(s.entities, e.guid, t) ==>
      ReaderOf(e, t) && !e.active && e.discoverer == s.entities[e.guid].discoverer
  }

  lemma AddKeepsSyncExactly(config: Configuration, s: System, e: Endpoint, t: DdsTopic)
    requires Tracked(config, s, t) && Sync(s, t) && e.discoverer != DEFAULT_PARTICIPANT_ID
    ensures Sync(Next(config, s, DatabaseOp(Operation(Add, e))), t) <==> AddKeepsUp(config, s, e, t)
  {
    var o := Operation(Add, e);
    var next := Next(config, s, DatabaseOp(o));
    WritersAfterCallback(config, s, o, t);
    RelevantMeansEdge(config, next.entities, e);
    hide IsEndpointRelevant, CanHost, Notified, ActivationInv, ValidConfiguration, WritersOf;
    if OutcomeOf(s.entities, o).Inconsistent? {
      assert next.entities == s.entities;
    } else {
      AddedReaders(s.entities, e, t);
      assert next.entities == s.entities[e.guid := e];
      var d := e.discoverer;
      if ReaderOf(e, t) && e.guid !in s.entities {
        if HasActiveReader(s.entities, t, d) {
          assert d in WritersOf(s.pipe, t);
        } else {
          forall g | IsActiveReader(next.entities, g, t, d) ensures e.active && g == e.guid {
            assert !IsActiveReader(s.entities, g, t, d);
          }
          assert IsEndpointRelevant(config, next.entities, e);
          assert !HasActiveReader(s.entities, t, d) && d !in WritersOf(s.pipe, t);
          assert HasActiveReader(next.entities, t, d) <==> e.active;
          assert d in WritersOf(next.pipe, t) <==> CanHost(config, s.pipe, t);
        }
      } else {
        assert WritersOf(next.pipe, t) == WritersOf(s.pipe, t);
        assert d in WritersOf(s.pipe, t) <==> HasActiveReader(s.entities, t, d);
      }
    }
  }

  /** Readers by participant, after adding or replacing something inactive. */
  lemma AddedReaders(entities: Entities, e: Endpoint, t: DdsTopic)
    requires e.guid in entities ==> !entities[e.guid].active
    ensures forall d :: HasActiveReader(entities[e.guid := e], t, d) <==>
                          HasActiveReader(entities, t, d) || (ReaderOf(e, t) && e.active && e.discoverer == d)
    ensures forall g, u, d ::
          g != e.guid ==> IsActiveReader(entities[e.guid := e], g, u, d) == IsActiveReader(entities, g, u, d)
  {
    var after := entities[e.guid := e];
    forall d ensures HasActiveReader(after, t, d) <==>
                       HasActiveReader(entities, t, d) || (ReaderOf(e, t) && e.active && e.discoverer == d) {
      if g :| IsActiveReader(entities, g, t, d) {
        assert IsActiveReader(after, g, t, d);
      }
      if ReaderOf(e, t) && e.active && e.discoverer == d {
        assert IsActiveReader(after, e.guid, t, d);
      }
      if g :| IsActiveReader(after, g, t, d) {
        assert g != e.guid ==> IsActiveReader(entities, g, t, d);
      }
    }
  }

  /** Somebody other than g is an active reader of t discovered by d. */
  ghost predicate HasOtherReader(entities: Entities, g: Guid, t: DdsTopic, d: ParticipantId) {
    exists h :: h != g && IsActiveReader(entities, h, t, d)
  }

  lemma ReadersAre(entities: Entities, g: Guid, t: DdsTopic)
    ensures forall d ::
          HasActiveReader(entities, t, d) <==> IsActiveReader(entities, g, t, d) || HasOtherReader(entities, g, t, d)
    ensures IsLastReader(entities, g, t) <==>
              g in entities && IsActiveReader(entities, g, t, entities[g].discoverer)
              && !HasOtherReader(entities, g, t, entities[g].discoverer)
  {
    forall d ensures HasActiveReader(entities, t, d) <==>
                       IsActiveReader(entities, g, t, d) || HasOtherReader(entities, g, t, d) {
      if h :| IsActiveReader(entities, h, t, d) {
        assert h != g ==> HasOtherReader(entities, g, t, d);
      }
    }
  }

  /** What happens to g does not change who else reads. */
  lemma OthersStay(entities: Entities, after: Entities, g: Guid, t: DdsTopic)
    requires forall h :: h != g ==> (h in entities <==> h in after) && (h in entities ==> after[h] == entities[h])
    ensures forall d :: HasOtherReader(after, g, t, d) == HasOtherReader(entities, g, t, d)
  {
    forall d ensures HasOtherReader(after, g, t, d) == HasOtherReader(entities, g, t, d) {
      if h :| h != g && IsActiveReader(entities, h, t, d) {
        assert IsActiveReader(after, h, t, d);
      }
      if h :| h != g && IsActiveReader(after, h, t, d) {
        assert IsActiveReader(entities, h, t, d);
      }
    }
  }

  lemma RelevantMeansNoOther(config: Configuration, entities: Entities, e: Endpoint)
    requires config.discoveryTrigger.ReaderTrigger? && KeyedByGuid(entities)
    ensures IsEndpointRelevant(config, entities, e) <==>
              && e.kind.Reader? && !HasOtherReader(entities, e.guid, e.topic, e.discoverer)
              && (IsActiveReader(entities, e.guid, e.topic, e.discoverer) == e.active)
  {
    RelevantMeansEdge(config, entities, e);
    ReadersAre(entities, e.guid, e.topic);
  }

  lemma UpdateKeepsSyncExactly(config: Configuration, s: System, e: Endpoint, t: DdsTopic)
    requires Tracked(config, s, t) && Sync(s, t) && e.discoverer != DEFAULT_PARTICIPANT_ID
    ensures Sync(Next(config, s, DatabaseOp(Operation(Update, e))), t) <==> UpdateKeepsUp(config, s, e, t)
  {
    hide IsEndpointRelevant, Allowed, FirstWriters;
    var o := Operation(Update, e);
    var next := Next(config, s, DatabaseOp(o));
    if e.guid !in s.entities {
      return;
    }
    WritersAfterCallback(config, s, o, t);
    RelevantMeansNoOther(config, next.entities, e);
    ReadersAre(s.entities, e.guid, t);
    ReadersAre(next.entities, e.guid, t);
    OthersStay(s.entities, next.entities, e.guid, t);
    NoBridgeNoReader(s, t);
    hide Notified, ActivationInv, ValidConfiguration, HasActiveReader, HasOtherReader, IsLastReader;
    var was := s.entities[e.guid];
    if IsLastReader(s.entities, e.guid, t) && !(ReaderOf(e, t) && e.discoverer == was.discoverer) {
      assert HasActiveReader(s.entities, t, was.discoverer) && was.discoverer in WritersOf(s.pipe, t);
      assert was.discoverer in WritersOf(next.pipe, t) && !HasActiveReader(next.entities, t, was.discoverer);
    } else if ReaderOf(e, t) && e.active && !HasActiveReader(s.entities, t, e.discoverer) {
      assert HasActiveReader(next.entities, t, e.discoverer) && e.discoverer !in WritersOf(s.pipe, t);
      assert e.discoverer in WritersOf(next.pipe, t) <==> CanHost(config, s.pipe, t);
    }
  }

  lemma NoBridgeNoReader(s: System, t: DdsTopic)
    requires Sync(s, t)
    ensures t !in s.pipe.bridges ==> forall d :: !HasActiveReader(s.entities, t, d)
  {
  }

  lemma EraseKeepsSyncExactly(config: Configuration, s: System, e: Endpoint, t: DdsTopic)
    requires Tracked(config, s, t) && Sync(s, t) && e.discoverer != DEFAULT_PARTICIPANT_ID
    ensures Sync(Next(config, s, DatabaseOp(Operation(Erase, e))), t) <==> EraseKeepsUp(s, e, t)
  {
    var o := Operation(Erase, e);
    var next := Next(config, s, DatabaseOp(o));
    if e.guid !in s.entities {
      return;
    }
    WritersAfterCallback(config, s, o, t);
    RelevantMeansNoOther(config, next.entities, e);
    ReadersAre(s.entities, e.guid, t);
    ReadersAre(next.entities, e.guid, t);
    OthersStay(s.entities, next.entities, e.guid, t);
    hide IsEndpointRelevant, Notified, ActivationInv, ValidConfiguration, HasActiveReader, HasOtherReader, IsLastReader;
    var was := s.entities[e.guid];
    if IsLastReader(s.entities, e.guid, t) {
      assert HasActiveReader(s.entities, t, was.discoverer) && was.discoverer in WritersOf(s.pipe, t);
      assert !HasActiveReader(next.entities, t, was.discoverer);
    }
  }

  // ----- The operations of the user

  /** The topic gets its bridge from enable or reload, not from a discovery. */
  ghost predicate BridgedLate(config: Configuration, pipe: Pipe, lists: Lists, t: DdsTopic) {
    t in pipe.current && t !in pipe.bridges && Allowed(config, lists, t)
  }

  /** A late bridge starts with one writer, in the participant that first discovered the topic. */
  lemma EnableSyncsExactly(config: Configuration, s: System, t: DdsTopic)
    requires Tracked(config, s, t) && !s.pipe.enabled
    ensures Sync(Next(config, s, EnablePipe), t) <==>
              if BridgedLate(config, s.pipe, s.pipe.lists, t) then
                forall d :: HasActiveReader(s.entities, t, d) <==> d == s.pipe.current[t].discoverer
              else Sync(s, t)
  {
    hide Allowed, HasActiveReader;
  }

  lemma DisableKeepsSync(config: Configuration, s: System, t: DdsTopic)
    requires Tracked(config, s, t)
    ensures Sync(Next(config, s, DisablePipe), t) <==> Sync(s, t)
  {
    hide Allowed, HasActiveReader;
  }

  lemma ReloadSyncsExactly(config: Configuration, s: System, lists: Lists, t: DdsTopic)
    requires Tracked(config, s, t)
    ensures Sync(Next(config, s, ReloadLists(lists)), t) <==>
              if s.pipe.enabled && BridgedLate(config, s.pipe, lists, t) then
                forall d :: HasActiveReader(s.entities, t, d) <==> d == s.pipe.current[t].discoverer
              else Sync(s, t)
  {
    hide Allowed, HasActiveReader;
  }
}
