/** Routes between participants, their validation, and what they mean for a reader. */
module RoutesConfiguration {
  import opened DdsPipeTypes

  /** For a reader with a route: the participants its data goes to. */
  type Routes = map<ParticipantId, set<ParticipantId>>

  /** Every participant, and whether it is a repeater. */
  type Participants = map<ParticipantId, bool>

  /** Routes name existing participants, and lead back to their source only for repeaters. */
  predicate ValidRoutes(routes: Routes, participants: Participants) {
    forall src :: src in routes ==>
      && src in participants
      && (forall dst :: dst in routes[src] ==> dst in participants && (dst == src ==> participants[src]))
  }

  /** `warned` are the repeaters whose route does not lead back to them. */
  method IsValid(routes: Routes, participants: Participants) returns (valid: bool, warned: set<ParticipantId>)
    ensures valid <==> ValidRoutes(routes, participants)
    ensures valid <==> forall src :: src in routes ==>
              src in participants && routes[src] <= participants.Keys && (src in routes[src] ==> participants[src])
    ensures valid ==> warned == set src | src in routes && participants[src] && src !in routes[src]
  {
    warned := {};
    var sources := routes.Keys;
    while sources != {}
      invariant sources <= routes.Keys
      invariant forall src :: src in routes && src !in sources ==>
                  && src in participants
                  && (forall dst :: dst in routes[src] ==> dst in participants && (dst == src ==> participants[src]))
      invariant warned == set src | src in routes && src !in sources && participants[src] && src !in routes[src]
      decreases sources
    {
      var src :| src in sources;
      if src !in participants {
        return false, warned;
      }
      var srcInDst := false;
      var isRepeater := participants[src];
      var destinations := routes[src];
      while destinations != {}
        invariant destinations <= routes[src]
        invariant forall dst :: dst in routes[src] - destinations ==>
                    dst in participants && (dst == src ==> participants[src])
        invariant srcInDst <==> src in routes[src] - destinations
        decreases destinations
      {
        var dst :| dst in destinations;
        if dst !in participants {
          return false, warned;
        } else if dst == src {
          if !isRepeater {
            return false, warned;
          }
          srcInDst := true;
        }
        destinations := destinations - {dst};
      }
      if !srcInDst && isRepeater {
        warned := warned + {src};
      }
      sources := sources - {src};
    }
    valid := true;
  }

  /** Where the data of participant i goes: its route, or everyone, itself only if it is a repeater. */
  function Destinations(routes: Routes, participants: Participants, i: ParticipantId): set<ParticipantId>
    requires i in participants
  {
    if i in routes then routes[i]
    else if participants[i] then participants.Keys
    else participants.Keys - {i}
  }

  /** With validated routes data goes to existing participants, and back to its own only for a repeater. */
  lemma OnlyRepeatersReachThemselves(routes: Routes, participants: Participants, i: ParticipantId)
    requires ValidRoutes(routes, participants) && i in participants
    ensures Destinations(routes, participants, i) <= participants.Keys
    ensures i in Destinations(routes, participants, i) ==> participants[i]
  {
  }
}
