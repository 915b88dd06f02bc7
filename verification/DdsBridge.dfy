/**
 The bridge of one topic: a track for each participant that has somebody to send to.

 Tracks are edited as writers come and go; they always are what the routes make of the set of writers
 that were created and not since removed.
 */
module DdsBridges {
  import opened DdsPipeTypes
  import opened RoutesConfiguration

  /** The identity of a writer object, in order of creation. */
  type WriterHandle = nat

  datatype Track = Track(enabled: bool, writers: map<ParticipantId, WriterHandle>)

  function Restrict(writers: map<ParticipantId, WriterHandle>, ids: set<ParticipantId>)
    : map<ParticipantId, WriterHandle>
  {
    map p | p in writers && p in ids :: writers[p]
  }

  /** The writers participant i should have a track to, whatever the history. */
  function Due(participants: Participants, routes: Routes, writers: map<ParticipantId, WriterHandle>, i: ParticipantId)
    : map<ParticipantId, WriterHandle>
  {
    if i in participants then Restrict(writers, Destinations(routes, participants, i)) else map[]
  }

  /** There is a track for i exactly when there are writers due, and it holds exactly those. */
  predicate IsTrackOf(
    tracks: map<ParticipantId, Track>, i: ParticipantId, enabled: bool, due: map<ParticipantId, WriterHandle>)
  {
    if due == map[] then i !in tracks else i in tracks && tracks[i] == Track(enabled, due)
  }

  /** A writer that is already there stays; the others are added. */
  function Adding(present: map<ParticipantId, WriterHandle>, more: map<ParticipantId, WriterHandle>)
    : (all: map<ParticipantId, WriterHandle>)
    ensures all.Keys == present.Keys + more.Keys
  {
    more + present
  }

  /** Everybody some participant sends to. */
  function AllDestinations(participants: Participants, routes: Routes): set<ParticipantId> {
    set i, p | i in participants && p in Destinations(routes, participants, i) :: p
  }

  predicate IsTrackTo(tracks: map<ParticipantId, Track>, i: ParticipantId, sends: set<ParticipantId>) {
    if sends == {} then i !in tracks else i in tracks && tracks[i].writers.Keys == sends
  }

  /**
   The tracks of a bridge that leaves nobody out: each participant has one along its route, or else to everybody,
   itself only if it is a repeater; and no track where that is nobody.
   */
  predicate LeavesNobodyOut(participants: Participants, routes: Routes, tracks: map<ParticipantId, Track>) {
    && tracks.Keys <= participants.Keys
    && forall i :: i in participants ==>
         && (i in routes ==> IsTrackTo(tracks, i, routes[i]))
         && (i !in routes && participants[i] ==> IsTrackTo(tracks, i, participants.Keys))
         && (i !in routes && !participants[i] ==> IsTrackTo(tracks, i, participants.Keys - {i}))
  }

  lemma AllWritersLeaveNobodyOut(
    participants: Participants, routes: Routes, tracks: map<ParticipantId, Track>, enabled: bool,
    writers: map<ParticipantId, WriterHandle>)
    requires writers.Keys == AllDestinations(participants, routes)
    requires forall i :: IsTrackOf(tracks, i, enabled, Due(participants, routes, writers, i))
    ensures LeavesNobodyOut(participants, routes, tracks)
  {
    forall i | i in tracks ensures i in participants {
      assert IsTrackOf(tracks, i, enabled, Due(participants, routes, writers, i));
    }
    forall i | i in participants ensures IsTrackTo(tracks, i, Destinations(routes, participants, i)) {
      assert IsTrackOf(tracks, i, enabled, Due(participants, routes, writers, i));
      forall p | p in Destinations(routes, participants, i) ensures p in AllDestinations(participants, routes) {
      }
      assert Due(participants, routes, writers, i).Keys == Destinations(routes, participants, i);
    }
  }

  datatype BridgeOp = Create(id: ParticipantId, handle: WriterHandle) | Remove(id: ParticipantId)

  /** What CreateWriter and RemoveWriter make of the outstanding writers. */
  function Changed(writers: map<ParticipantId, WriterHandle>, op: BridgeOp): map<ParticipantId, WriterHandle> {
    match op
    case Create(id, handle) => if id in writers then writers else writers[id := handle]
    case Remove(id) => writers - {id}
  }

  function Outstanding(ops: seq<BridgeOp>): map<ParticipantId, WriterHandle> {
    if ops == [] then map[] else Changed(Outstanding(ops[..|ops| - 1]), ops[|ops| - 1])
  }

  lemma OutstandingOneMore(ops: seq<BridgeOp>, op: BridgeOp)
    ensures Outstanding(ops + [op]) == Changed(Outstanding(ops), op)
  {
    assert (ops + [op])[..|ops|] == ops;
  }

  class DdsBridge {
    const participants: Participants
    const routes: Routes
    var enabled: bool
    var tracks: map<ParticipantId, Track>
    var created: nat                                   // writer objects created so far
    ghost var history: seq<BridgeOp>                    // the writers created and removed, in order
    ghost var writers: map<ParticipantId, WriterHandle> // created and not since removed

    ghost predicate Valid()
      reads this
    {
      && ValidRoutes(routes, participants)
      && (forall i :: IsTrackOf(tracks, i, enabled, Due(participants, routes, writers, i)))
      && writers.Keys <= participants.Keys && writers == Outstanding(history)
    }

    constructor (participants: Participants, routes: Routes, removeUnusedEntities: bool, discoverer: ParticipantId)
      requires ValidRoutes(routes, participants)
      requires removeUnusedEntities && discoverer != DEFAULT_PARTICIPANT_ID ==> discoverer in participants
      ensures Valid() && !enabled && this.participants == participants && this.routes == routes
      ensures writers.Keys == if removeUnusedEntities && discoverer != DEFAULT_PARTICIPANT_ID then {discoverer}
                              else AllDestinations(participants, routes)
      ensures !removeUnusedEntities || discoverer == DEFAULT_PARTICIPANT_ID ==>
                LeavesNobodyOut(participants, routes, tracks)
    {
      this.participants, this.routes := participants, routes;
      enabled, tracks, created, writers, history := false, map[], 0, map[], [];
      new;
      if removeUnusedEntities && discoverer != DEFAULT_PARTICIPANT_ID {
        CreateWriter(discoverer);
      } else {
        CreateAllTracks();
      }
    }

    method Enable()
      requires Valid()
      modifies this`enabled, this`tracks
      ensures Valid() && enabled
    {
      if !enabled {
        tracks := map i | i in tracks :: tracks[i].(enabled := true);
        enabled := true;
      }
    }

    method Disable()
      requires Valid()
      modifies this`enabled, this`tracks
      ensures Valid() && !enabled
    {
      if enabled {
        tracks := map i | i in tracks :: tracks[i].(enabled := false);
        enabled := false;
      }
    }

    method CreateAllTracks()
      requires Valid() && writers == map[] && history == []
      modifies this
      ensures Valid() && enabled == old(enabled)
      ensures writers.Keys == AllDestinations(participants, routes)
      ensures LeavesNobodyOut(participants, routes, tracks)
    {
      var writersToCreate := WritersToCreate();
      var more;
      ghost var ops;
      more, ops := CreateWriters(writersToCreate);
      assert [] + ops == ops && Adding(map[], more) == more;
      AddWritersToTracks(more, ops);
      hide Due, IsTrackOf, AllDestinations, LeavesNobodyOut;
      AllWritersLeaveNobodyOut(participants, routes, tracks, enabled, writers);
    }

    /** The first loop: what writers the routes need. */
    method WritersToCreate() returns (writersToCreate: set<ParticipantId>)
      requires Valid()
      ensures writersToCreate == AllDestinations(participants, routes) && writersToCreate <= participants.Keys
    {
      writersToCreate := {};
      var ids := participants.Keys;
      while ids != {}
        invariant ids <= participants.Keys
        invariant forall p :: p in writersToCreate <==>
                    exists i :: i in participants && i !in ids && p in Destinations(routes, participants, i)
        decreases ids
      {
        var id :| id in ids;
        ghost var before := writersToCreate;
        if id in routes {
          writersToCreate := writersToCreate + routes[id];
        } else {
          var writersIds := participants.Keys;
          if !participants[id] {
            writersIds := writersIds - {id};
          }
          writersToCreate := writersToCreate + writersIds;
        }
        assert writersToCreate == before + Destinations(routes, participants, id);
        ids := ids - {id};
      }
      forall p | p in writersToCreate ensures p in participants {
        var i :| i in participants && p in Destinations(routes, participants, i);
        OnlyRepeatersReachThemselves(routes, participants, i);
      }
    }

    /** The second loop: the writers themselves. */
    method CreateWriters(ids: set<ParticipantId>)
      returns (more: map<ParticipantId, WriterHandle>, ghost ops: seq<BridgeOp>)
      requires Valid()
      modifies this`created
      ensures Valid() && more.Keys == ids && Outstanding(ops) == more
    {
      more, ops := map[], [];
      var writersToCreate := ids;
      while writersToCreate != {}
        invariant Valid() && Outstanding(ops) == more
        invariant writersToCreate <= ids && more.Keys == ids - writersToCreate
        decreases writersToCreate
      {
        var id :| id in writersToCreate;
        OutstandingOneMore(ops, Create(id, created));
        ops := ops + [Create(id, created)];
        more := more[id := created];
        created := created + 1;
        writersToCreate := writersToCreate - {id};
      }
    }

    method CreateWriter(id: ParticipantId)
      requires Valid() && id in participants
      modifies this
      ensures Valid() && enabled == old(enabled)
      ensures writers == if id in old(writers) then old(writers) else old(writers)[id := old(created)]
      ensures created == old(created) + 1 && history == old(history) + [Create(id, old(created))]
    {
      var writer := created;
      created := created + 1;
      OutstandingOneMore(history, Create(id, writer));
      assert Adding(writers, map[id := writer]) == if id in writers then writers else writers[id := writer];
      AddWritersToTracks(map[id := writer], [Create(id, writer)]);
    }

    method RemoveWriter(id: ParticipantId)
      requires Valid()
      modifies this
      ensures Valid() && enabled == old(enabled) && created == old(created)
      ensures writers == old(writers) - {id} && history == old(history) + [Remove(id)]
      ensures forall i :: i in old(tracks) ==> (i !in tracks <==> old(tracks)[i].writers.Keys == {id})
    {
      hide Due, IsTrackOf, Outstanding;
      var ids := tracks.Keys;
      ghost var was := tracks;
      NothingToRemoveElsewhere(id);
      while ids != {}
        invariant enabled == old(enabled) && created == old(created)
        invariant writers == old(writers) && history == old(history)
        invariant forall i :: i in ids ==> IsTrackOf(tracks, i, enabled, Due(participants, routes, writers, i))
        invariant forall i :: i !in ids ==>
                    IsTrackOf(tracks, i, enabled, Due(participants, routes, writers, i) - {id})
        decreases ids
      {
        var i :| i in ids;
        assert IsTrackOf(tracks, i, enabled, Due(participants, routes, writers, i));
        RemoveFromTrack(i, Due(participants, routes, writers, i), id);
        ids := ids - {i};
      }
      OutstandingOneMore(history, Remove(id));
      writers, history := writers - {id}, history + [Remove(id)];
      forall i ensures IsTrackOf(tracks, i, enabled, Due(participants, routes, writers, i)) {
        DueAfterRemoval(participants, routes, old(writers), id, i);
        assert i !in ids;
      }
      forall i | i in old(tracks) ensures i !in tracks <==> old(tracks)[i].writers.Keys == {id} {
        DueAfterRemoval(participants, routes, old(writers), id, i);
        assert IsTrackOf(was, i, enabled, Due(participants, routes, old(writers), i));
        ErasedExactly(was, tracks, i, enabled, Due(participants, routes, old(writers), i), id);
      }
    }

    lemma NothingToRemoveElsewhere(id: ParticipantId)
      requires Valid()
      ensures forall i :: i !in tracks ==> IsTrackOf(tracks, i, enabled, Due(participants, routes, writers, i) - {id})
    {
    }

    /** One track's part of the loop above: a track left without writers is erased. */
    method RemoveFromTrack(i: ParticipantId, ghost present: map<ParticipantId, WriterHandle>, id: ParticipantId)
      requires IsTrackOf(tracks, i, enabled, present)
      modifies this`tracks
      ensures forall j, due :: j != i && IsTrackOf(old(tracks), j, enabled, due) ==> IsTrackOf(tracks, j, enabled, due)
      ensures IsTrackOf(tracks, i, enabled, present - {id})
    {
      if i in tracks {
        tracks := tracks[i := tracks[i].(writers := tracks[i].writers - {id})];
        if tracks[i].writers == map[] {
          tracks := tracks - {i};
        }
      }
    }

    /** Adds each writer to the tracks with a route to it, creating the tracks that are missing. */
    method AddWritersToTracks(more: map<ParticipantId, WriterHandle>, ghost ops: seq<BridgeOp>)
      requires Valid() && more.Keys <= participants.Keys && Outstanding(history + ops) == Adding(writers, more)
      modifies this
      ensures Valid() && enabled == old(enabled) && created == old(created)
      ensures writers == Adding(old(writers), more) && history == old(history) + ops
    {
      hide Due, Adding, IsTrackOf, Outstanding;
      var ids := participants.Keys;
      NothingDueElsewhere(participants, routes, writers, more);
      while ids != {}
        invariant ids <= participants.Keys
        invariant enabled == old(enabled) && created == old(created)
        invariant writers == old(writers) && history == old(history)
        invariant forall i :: i in ids ==> IsTrackOf(tracks, i, enabled, Due(participants, routes, writers, i))
        invariant forall i :: i !in ids ==>
                    IsTrackOf(tracks, i, enabled,
                              Adding(Due(participants, routes, writers, i), Due(participants, routes, more, i)))
        decreases ids
      {
        var id :| id in ids;
        assert IsTrackOf(tracks, id, enabled, Due(participants, routes, writers, id));
        var writersOfTrack := SelectWriters(id, more);
        AddToTrack(id, Due(participants, routes, writers, id), writersOfTrack);
        ids := ids - {id};
      }
      writers, history := Adding(writers, more), history + ops;
      forall i ensures IsTrackOf(tracks, i, enabled, Due(participants, routes, writers, i)) {
        DueAfterAddition(participants, routes, old(writers), more, i);
        assert i !in ids;
      }
    }

    /** The new writers the reader of participant id has a route to. */
    method SelectWriters(id: ParticipantId, more: map<ParticipantId, WriterHandle>)
      returns (writersOfTrack: map<ParticipantId, WriterHandle>)
      requires id in participants && more.Keys <= participants.Keys
      ensures writersOfTrack == Due(participants, routes, more, id)
    {
      if id in routes {
        writersOfTrack := map w | w in routes[id] && w in more :: more[w];
      } else {
        writersOfTrack := more;
        if !participants[id] {
          writersOfTrack := writersOfTrack - {id};
        }
      }
    }

    /** One reader's part of the loop above: nothing to add, a track to extend, or a track to create. */
    method AddToTrack(id: ParticipantId, ghost present: map<ParticipantId, WriterHandle>,
                      writersOfTrack: map<ParticipantId, WriterHandle>)
      requires IsTrackOf(tracks, id, enabled, present)
      modifies this`tracks
      ensures forall j, due :: j != id && IsTrackOf(old(tracks), j, enabled, due) ==> IsTrackOf(tracks, j, enabled, due)
      ensures IsTrackOf(tracks, id, enabled, Adding(present, writersOfTrack))
    {
      if writersOfTrack == map[] {
        assert Adding(present, writersOfTrack) == present;
        return;
      }
      ghost var p :| p in writersOfTrack;
      if id in tracks {
        AddMissingWriters(id, writersOfTrack);
        assert p in tracks[id].writers;
      } else {
        assert Adding(map[], writersOfTrack) == writersOfTrack;
        tracks := tracks[id := Track(false, writersOfTrack)];
        if enabled {
          tracks := tracks[id := tracks[id].(enabled := true)];
        }
      }
    }

    /** Only the writers the track does not have yet. */
    method AddMissingWriters(id: ParticipantId, writersOfTrack: map<ParticipantId, WriterHandle>)
      requires id in tracks
      modifies this`tracks
      ensures tracks == old(tracks)[id := old(tracks[id]).(writers := Adding(old(tracks[id]).writers, writersOfTrack))]
    {
      var todo := writersOfTrack.Keys;
      ghost var start := tracks[id];
      assert writersOfTrack - todo == map[] && Adding(start.writers, map[]) == start.writers;
      assert tracks == tracks[id := start];
      while todo != {}
        invariant todo <= writersOfTrack.Keys && id in tracks
        invariant tracks == old(tracks)[id := start.(writers := Adding(start.writers, writersOfTrack - todo))]
        decreases todo
      {
        var writerId :| writerId in todo;
        assert Adding(start.writers, writersOfTrack - (todo - {writerId}))
               == if writerId in tracks[id].writers then tracks[id].writers
                  else tracks[id].writers[writerId := writersOfTrack[writerId]];
        if writerId !in tracks[id].writers {
          tracks := tracks[id := tracks[id].(writers := tracks[id].writers[writerId := writersOfTrack[writerId]])];
        }
        todo := todo - {writerId};
      }
      assert writersOfTrack - {} == writersOfTrack;
    }
  }

  lemma DueAfterAddition(participants: Participants, routes: Routes, present: map<ParticipantId, WriterHandle>,
                         more: map<ParticipantId, WriterHandle>, i: ParticipantId)
    ensures Due(participants, routes, Adding(present, more), i)
         == Adding(Due(participants, routes, present, i), Due(participants, routes, more, i))
  {
  }

  lemma NothingDueElsewhere(participants: Participants, routes: Routes, present: map<ParticipantId, WriterHandle>,
                            more: map<ParticipantId, WriterHandle>)
    ensures forall i ::
              (i !in participants ==>
                 Adding(Due(participants, routes, present, i), Due(participants, routes, more, i))
                 == Due(participants, routes, present, i))
  {
  }

  lemma DueAfterRemoval(participants: Participants, routes: Routes, present: map<ParticipantId, WriterHandle>,
                        id: ParticipantId, i: ParticipantId)
    ensures Due(participants, routes, present - {id}, i) == Due(participants, routes, present, i) - {id}
  {
  }

  lemma ErasedExactly(
    was: map<ParticipantId, Track>, now: map<ParticipantId, Track>, i: ParticipantId, enabled: bool,
    due: map<ParticipantId, WriterHandle>, id: ParticipantId)
    requires i in was && IsTrackOf(was, i, enabled, due) && IsTrackOf(now, i, enabled, due - {id})
    ensures i !in now <==> was[i].writers.Keys == {id}
  {
    if i !in now {
      assert forall p :: p in due && p != id ==> p in due - {id};
      assert due.Keys == {id};
    }
  }

  // ----- Any sequence of creations and removals

  /** Step k creates p's writer and no later step removes it. */
  predicate CreatedAndKept(ops: seq<BridgeOp>, p: ParticipantId, k: int) {
    && 0 <= k < |ops| && ops[k].Create? && ops[k].id == p
    && forall j :: k < j < |ops| ==> ops[j] != Remove(p)
  }

  /** The outstanding writers are those created and not since removed. */
  lemma {:induction false} OutstandingMeansNotRemoved(ops: seq<BridgeOp>, p: ParticipantId)
    ensures p in Outstanding(ops) <==> exists k :: CreatedAndKept(ops, p, k)
    decreases |ops|
  {
    if ops != [] {
      var n := |ops| - 1;
      var earlier := ops[..n];
      OutstandingMeansNotRemoved(earlier, p);
      if ops[n] == Remove(p) {
        assert forall k :: CreatedAndKept(ops, p, k) ==> k < n;
      } else if ops[n].Create? && ops[n].id == p {
        assert CreatedAndKept(ops, p, n);
      } else {
        if k :| CreatedAndKept(earlier, p, k) {
          assert CreatedAndKept(ops, p, k);
        }
        if k :| CreatedAndKept(ops, p, k) {
          assert CreatedAndKept(earlier, p, k);
        }
      }
    }
  }

  lemma DueIsWhatIsOutstanding(
    participants: Participants, routes: Routes, ops: seq<BridgeOp>, i: ParticipantId, p: ParticipantId)
    requires i in participants
    ensures p in Due(participants, routes, Outstanding(ops), i)
            <==> p in Destinations(routes, participants, i) && exists k :: CreatedAndKept(ops, p, k)
  {
    OutstandingMeansNotRemoved(ops, p);
  }

  /**
   Confluence: participant i has a track exactly when it sends to somebody whose writer was created and
   not since removed, and then the track holds exactly those writers, whatever the order of events.
   */
  lemma TracksDependOnOutstandingWritersOnly(bridge: DdsBridge, i: ParticipantId)
    requires bridge.Valid() && i in bridge.participants
    ensures var dest, ops, tracks := Destinations(bridge.routes, bridge.participants, i), bridge.history, bridge.tracks;
            && (i in tracks <==> exists p, k :: p in dest && CreatedAndKept(ops, p, k))
            && (i in tracks ==>
                  && tracks[i].enabled == bridge.enabled
                  && forall p :: p in tracks[i].writers <==> p in dest && exists k :: CreatedAndKept(ops, p, k))
  {
    var dest, ops := Destinations(bridge.routes, bridge.participants, i), bridge.history;
    var due := Due(bridge.participants, bridge.routes, bridge.writers, i);
    assert IsTrackOf(bridge.tracks, i, bridge.enabled, due);
    forall p ensures p in due <==> p in dest && exists k :: CreatedAndKept(ops, p, k) {
      DueIsWhatIsOutstanding(bridge.participants, bridge.routes, ops, i, p);
    }
    hide Due, DdsBridge.Valid, CreatedAndKept, Destinations;
    if due != map[] {
      var p :| p in due;
      var k :| CreatedAndKept(ops, p, k);
      assert p in dest && CreatedAndKept(ops, p, k);
    }
  }

  /** With validated routes only a repeater's track holds its own participant's writer. */
  lemma OwnWriterOnlyForRepeaters(bridge: DdsBridge, i: ParticipantId)
    requires bridge.Valid() && i in bridge.tracks && i in bridge.tracks[i].writers
    ensures i in bridge.participants && bridge.participants[i]
  {
    assert IsTrackOf(bridge.tracks, i, bridge.enabled, Due(bridge.participants, bridge.routes, bridge.writers, i));
    OnlyRepeatersReachThemselves(bridge.routes, bridge.participants, i);
  }
}
