/**
 The database of discovered endpoints.  Anyone may push operations; one thread applies them in order.

 The queue is double buffered: pushes go to the background, the processing thread works off the foreground.
 Every method below is one critical section of the source, so any interleaving of pushers with the
 processing thread is a sequence of calls that each keep Valid().
 */
module DiscoveryDatabases {
  import opened DdsPipeTypes

  datatype OperationKind = Add | Update | Erase

  datatype Operation = Operation(kind: OperationKind, endpoint: Endpoint)

  /** What an applied operation makes the database do: throw, nothing, or run one set of callbacks. */
  datatype Outcome = Inconsistent | Silent | Added(e: Endpoint) | Updated(e: Endpoint) | Erased(e: Endpoint)

  type Entities = map<Guid, Endpoint>

  function OutcomeOf(entities: Entities, op: Operation): Outcome {
    var e := op.endpoint;
    match op.kind
    case Add => if e.guid !in entities then Added(e) else if entities[e.guid].active then Inconsistent else Silent
    case Update => if e.guid in entities then Updated(e) else Inconsistent
    case Erase => if e.guid in entities then Erased(e) else Inconsistent
  }

  function Applied(entities: Entities, op: Operation): Entities {
    if OutcomeOf(entities, op).Inconsistent? then entities
    else if op.kind.Erase? then entities - {op.endpoint.guid}
    else entities[op.endpoint.guid := op.endpoint]
  }

  /** The endpoints left by operations applied in order, inconsistent ones changing nothing. */
  function Fold(ops: seq<Operation>): Entities {
    if ops == [] then map[] else Applied(Fold(ops[..|ops| - 1]), ops[|ops| - 1])
  }

  lemma FoldOneMore(ops: seq<Operation>, op: Operation)
    ensures Fold(ops + [op]) == Applied(Fold(ops), op)
  {
    assert (ops + [op])[..|ops|] == ops;
  }

  class DiscoveryDatabase {
    var entities: Entities
    var foreground: seq<Operation>
    var background: seq<Operation>
    ghost var pushed: seq<Operation>
    ghost var processed: seq<Operation>

    ghost predicate Valid()
      reads this
    {
      && pushed == processed + foreground + background
      && entities == Fold(processed)
    }

    constructor ()
      ensures Valid() && pushed == [] && foreground == [] && entities == map[]
    {
      entities, foreground, background, pushed, processed := map[], [], [], [], [];
    }

    /** add_endpoint, update_endpoint and erase_endpoint. */
    method PushItemToQueue(op: Operation)
      requires Valid()
      modifies this`background, this`pushed
      ensures Valid() && pushed == old(pushed) + [op]
    {
      background := background + [op];
      pushed := pushed + [op];
    }

    /** Done by the processing thread only, when it has worked off the foreground. */
    method Swap()
      requires Valid() && foreground == []
      modifies this`foreground, this`background
      ensures Valid() && foreground == old(background) && background == []
    {
      foreground, background := background, foreground;
    }

    /** One round of the processing loop, up to the callbacks its outcome stands for. */
    method ProcessFront() returns (outcome: Outcome)
      requires Valid() && foreground != []
      modifies this`entities, this`foreground, this`processed
      ensures Valid() && foreground == old(foreground)[1..] && processed == old(processed) + [old(foreground)[0]]
      ensures outcome == OutcomeOf(old(entities), old(foreground)[0])
      ensures entities == Applied(old(entities), old(foreground)[0])
    {
      hide Fold, Applied, OutcomeOf;
      var op := foreground[0];
      FoldOneMore(processed, op);
      match op.kind {
        case Add => outcome := AddEndpoint(op.endpoint);
        case Update => outcome := UpdateEndpoint(op.endpoint);
        case Erase => outcome := EraseEndpoint(op.endpoint);
      }
      assert [op] + foreground[1..] == foreground;
      foreground := foreground[1..];
      processed := processed + [op];
    }

    method AddEndpoint(newEndpoint: Endpoint) returns (outcome: Outcome)
      modifies this`entities
      ensures outcome == OutcomeOf(old(entities), Operation(Add, newEndpoint))
      ensures entities == Applied(old(entities), Operation(Add, newEndpoint))
      ensures var g := newEndpoint.guid;
              && outcome == (if g !in old(entities) then Added(newEndpoint)
                             else if old(entities)[g].active then Inconsistent else Silent)
              && (outcome.Inconsistent? ==> entities == old(entities))
              && (!outcome.Inconsistent? ==> entities == old(entities)[g := newEndpoint])
    {
      if newEndpoint.guid in entities {
        if entities[newEndpoint.guid].active {
          return Inconsistent;
        } else {
          entities := entities[newEndpoint.guid := newEndpoint];
          return Silent;
        }
      }
      entities := entities[newEndpoint.guid := newEndpoint];
      return Added(newEndpoint);
    }

    method UpdateEndpoint(endpointToUpdate: Endpoint) returns (outcome: Outcome)
      modifies this`entities
      ensures outcome == OutcomeOf(old(entities), Operation(Update, endpointToUpdate))
      ensures entities == Applied(old(entities), Operation(Update, endpointToUpdate))
      ensures if endpointToUpdate.guid in old(entities)
              then outcome == Updated(endpointToUpdate)
                   && entities == old(entities)[endpointToUpdate.guid := endpointToUpdate]
              else outcome == Inconsistent && entities == old(entities)
    {
      if endpointToUpdate.guid !in entities {
        return Inconsistent;
      }
      entities := entities[endpointToUpdate.guid := endpointToUpdate];
      return Updated(endpointToUpdate);
    }

    method EraseEndpoint(endpointToErase: Endpoint) returns (outcome: Outcome)
      modifies this`entities
      ensures outcome == OutcomeOf(old(entities), Operation(Erase, endpointToErase))
      ensures entities == Applied(old(entities), Operation(Erase, endpointToErase))
      ensures entities == old(entities) - {endpointToErase.guid}
      ensures outcome == if endpointToErase.guid in old(entities) then Erased(endpointToErase) else Inconsistent
    {
      var erased := if endpointToErase.guid in entities then 1 else 0;
      entities := entities - {endpointToErase.guid};
      if erased == 0 {
        return Inconsistent;
      }
      return Erased(endpointToErase);
    }

    method GetEndpoints(isValidEndpoint: Endpoint -> bool) returns (endpoints: Entities)
      ensures endpoints == map g | g in entities && isValidEndpoint(entities[g]) :: entities[g]
    {
      endpoints := map[];
      var guids := entities.Keys;
      while guids != {}
        invariant guids <= entities.Keys
        invariant endpoints == map g | g in entities && g !in guids && isValidEndpoint(entities[g]) :: entities[g]
        decreases guids
      {
        var guid :| guid in guids;
        if isValidEndpoint(entities[guid]) {
          endpoints := endpoints[guid := entities[guid]];
        }
        guids := guids - {guid};
      }
    }
  }

  // ----- What is in the database, in terms of the operations alone

  /** Operation k adds g and no later one erases it. */
  predicate AddedAndKept(ops: seq<Operation>, g: Guid, k: int) {
    && 0 <= k < |ops| && ops[k].kind.Add? && ops[k].endpoint.guid == g
    && forall j :: k < j < |ops| ==> !(ops[j].kind.Erase? && ops[j].endpoint.guid == g)
  }

  /** An endpoint is known exactly if it was added and not erased since, inconsistent operations included. */
  lemma {:induction false} KnownMeansAddedAndKept(ops: seq<Operation>, g: Guid)
    ensures g in Fold(ops) <==> exists k :: AddedAndKept(ops, g, k)
    decreases |ops|
  {
    if ops != [] {
      var n := |ops| - 1;
      var earlier := ops[..n];
      KnownMeansAddedAndKept(earlier, g);
      if ops[n].endpoint.guid == g && ops[n].kind.Erase? {
        assert forall k :: AddedAndKept(ops, g, k) ==> k < n;
      } else if ops[n].endpoint.guid == g && ops[n].kind.Add? {
        assert AddedAndKept(ops, g, n);
      } else {
        if k :| AddedAndKept(earlier, g, k) {
          assert AddedAndKept(ops, g, k);
        }
        if k :| AddedAndKept(ops, g, k) {
          assert AddedAndKept(earlier, g, k);
        }
      }
    }
  }

  /** Operation k brought the stored endpoint in, and everything about g since then was refused. */
  predicate Brought(ops: seq<Operation>, g: Guid, e: Endpoint, k: int) {
    && 0 <= k < |ops| && !ops[k].kind.Erase? && ops[k].endpoint == e && e.guid == g
    && forall j :: k < j < |ops| && ops[j].endpoint.guid == g ==> ops[j].kind.Add? && e.active
  }

  /** What is stored is the latest endpoint given for its guid, but for additions over an active one. */
  lemma {:induction false} StoredIsTheLatest(ops: seq<Operation>, g: Guid) returns (k: int)
    requires g in Fold(ops)
    ensures Brought(ops, g, Fold(ops)[g], k)
    decreases |ops|
  {
    var n := |ops| - 1;
    var earlier, op := ops[..n], ops[n];
    if op.endpoint.guid == g && !OutcomeOf(Fold(earlier), op).Inconsistent? {
      k := n;
    } else {
      k := StoredIsTheLatest(earlier, g);
      assert ops[k] == earlier[k];
      forall j | k < j < |ops| && ops[j].endpoint.guid == g ensures ops[j].kind.Add? && Fold(ops)[g].active {
        assert j < n ==> ops[j] == earlier[j];
      }
    }
  }

  predicate KeyedByGuid(entities: Entities) {
    forall g :: g in entities ==> entities[g].guid == g
  }
}
