/**
 The three payload pools: one that always copies, one that counts references in a map, and one that
 counts them in a header in front of each block.  Each operation is a function on the pool's state;
 the classes at the end update their fields in place and are proved against these functions.

 An address chosen by malloc is a parameter: any non-null address that is not in use.
 */
module PayloadPools {
  import opened DdsPipeTypes

  type Byte = bv8
  type Address = nat

  const NULL: Address := 0

  /** The handle a client holds: a pointer and what the client believes about it. */
  datatype Payload = Payload(data: Address, length: nat, maxSize: nat, pos: nat)

  const EMPTY := Payload(NULL, 0, 0, 0)

  /**
   `memory` holds the blocks this pool has allocated and not freed.  `refs` is the map of counters, or
   the counter in each block's header; the copying pool does not use it.
   */
  datatype Pool = Pool(memory: map<Address, seq<Byte>>, refs: map<Address, nat>, reserved: nat, released: nat) {
    predicate IsClean() {
      reserved == released
    }
  }

  const NEW_POOL := Pool(map[], map[], 0, 0)

  /** `Refused` is `return false`, `Inconsistent` is a thrown InconsistencyException. */
  datatype Outcome = Done(pool: Pool, payload: Payload) | Refused | Inconsistent

  datatype Kind = Copying | Mapped | Fast

  // ----- PayloadPool: counters

  /** `add_release_payload_`: throws when more blocks are released than were reserved. */
  function CountRelease(pool: Pool, payload: Payload): Outcome {
    var counted := pool.(released := pool.released + 1);
    if counted.released > counted.reserved then Inconsistent else Done(counted, payload)
  }

  /** malloc or realloc of a block whose bytes are whatever was there. */
  function Allocate(pool: Pool, a: Address, garbage: seq<Byte>): Pool {
    pool.(memory := pool.memory[a := garbage], reserved := pool.reserved + 1)
  }

  /** memcpy of the first |bytes| bytes of a block. */
  function Overwrite(block: seq<Byte>, bytes: seq<Byte>): (r: seq<Byte>)
    requires |bytes| <= |block|
    ensures |r| == |block| && r[..|bytes|] == bytes && r[|bytes|..] == block[|bytes|..]
  {
    bytes + block[|bytes|..]
  }

  // ----- get_payload(size, payload)

  /** A size of zero is refused by `reserve_`, but the copying pool does not look at that answer. */
  function CopyingGet(pool: Pool, garbage: seq<Byte>, a: Address, target: Payload): Outcome {
    if garbage == [] then Done(pool, target.(maxSize := 0))
    else Done(Allocate(pool, a, garbage), target.(data := a, maxSize := |garbage|))
  }

  function MappedGet(pool: Pool, garbage: seq<Byte>, a: Address, target: Payload): Outcome {
    if garbage == [] then Refused
    else
      Done(Allocate(pool, a, garbage).(refs := pool.refs[a := 1]), target.(data := a, maxSize := |garbage|))
  }

  function FastGet(pool: Pool, garbage: seq<Byte>, a: Address, target: Payload): Outcome {
    if garbage == [] then Refused
    else
      Done(Pool(pool.memory[a := garbage], pool.refs[a := 1], pool.reserved + 1, pool.released),
           target.(data := a, maxSize := |garbage|))
  }

  /** The garbage has the size that was asked for. */
  function Get(kind: Kind, pool: Pool, garbage: seq<Byte>, a: Address, target: Payload): Outcome {
    match kind
    case Copying => CopyingGet(pool, garbage, a, target)
    case Mapped => MappedGet(pool, garbage, a, target)
    case Fast => FastGet(pool, garbage, a, target)
  }

  // ----- get_payload(src_payload, data_owner, target_payload)

  /** The source lives outside the pool: reserve its max_size and copy its bytes. */
  function GetCopy(kind: Kind, pool: Pool, bytes: seq<Byte>, garbage: seq<Byte>, a: Address): Outcome
    requires |bytes| <= |garbage|
  {
    match Get(kind, pool, garbage, a, EMPTY)
    case Done(p, target) =>
      var filled := if target.data in p.memory && |bytes| <= |p.memory[target.data]|
                    then p.(memory := p.memory[target.data := Overwrite(p.memory[target.data], bytes)])
                    else p;
      Done(filled, target.(length := |bytes|))
    case other => other
  }

  /** The source is a payload of this pool.  The copying pool copies it like any other. */
  function GetReference(kind: Kind, pool: Pool, src: Payload, garbage: seq<Byte>, a: Address): Outcome
    requires src.data in pool.memory && src.length <= |pool.memory[src.data]| && |garbage| == src.maxSize
    requires src.length <= src.maxSize
    requires kind.Fast? ==> src.data in pool.refs
  {
    if kind.Copying? then
      GetCopy(kind, pool, pool.memory[src.data][..src.length], garbage, a)
    else if src.data !in pool.refs then
      Inconsistent
    else
      Done(pool.(refs := pool.refs[src.data := (pool.refs[src.data] + 1) % WORD]), src.(pos := 0))
  }

  // ----- release_payload

  function CopyingRelease(pool: Pool, payload: Payload): Outcome {
    CountRelease(pool.(memory := pool.memory - {payload.data}), EMPTY)
  }

  function MappedRelease(pool: Pool, payload: Payload): Outcome {
    if payload.data !in pool.refs then Inconsistent
    else
      var left := (pool.refs[payload.data] + WORD - 1) % WORD;
      if left == 0 then
        match CountRelease(pool.(memory := pool.memory - {payload.data}), EMPTY)
        case Done(p, e) => Done(p.(refs := p.refs - {payload.data}), e)
        case other => other
      else
        Done(pool.(refs := pool.refs[payload.data := left]), EMPTY)
  }

  /** The header goes away with the block. */
  function FastRelease(pool: Pool, payload: Payload): Outcome
    requires payload.data in pool.refs
  {
    var left := (pool.refs[payload.data] + WORD - 1) % WORD;
    if left == 0 then
      CountRelease(pool.(memory := pool.memory - {payload.data}, refs := pool.refs - {payload.data}), EMPTY)
    else
      Done(pool.(refs := pool.refs[payload.data := left]), EMPTY)
  }

  function Release(kind: Kind, pool: Pool, payload: Payload): Outcome
    requires kind.Fast? ==> payload.data in pool.refs
  {
    match kind
    case Copying => CopyingRelease(pool, payload)
    case Mapped => MappedRelease(pool, payload)
    case Fast => FastRelease(pool, payload)
  }

  // ----- The pools in place

  class CopyPayloadPool {
    var memory: map<Address, seq<Byte>>
    var reserveCount: nat
    var releaseCount: nat

    function View(): Pool
      reads this
    {
      Pool(memory, map[], reserveCount, releaseCount)
    }

    constructor ()
      ensures View() == NEW_POOL
    {
      memory, reserveCount, releaseCount := map[], 0, 0;
    }

    method GetPayload(garbage: seq<Byte>, a: Address, target: Payload) returns (payload: Payload)
      modifies this
      ensures CopyingGet(old(View()), garbage, a, target) == Done(View(), payload)
      ensures garbage != [] ==> memory == old(memory)[a := garbage] && reserveCount == old(reserveCount) + 1
      ensures garbage == [] ==> View() == old(View())
      ensures payload == target.(maxSize := |garbage|, data := if garbage == [] then target.data else a)
    {
      payload := target;
      if garbage != [] {
        memory := memory[a := garbage];
        reserveCount := reserveCount + 1;
        payload := payload.(data := a);
      }
      payload := payload.(maxSize := |garbage|);
    }

    method ReleasePayload(payload: Payload) returns (ok: bool, after: Payload)
      modifies this
      ensures ok ==> CopyingRelease(old(View()), payload) == Done(View(), after)
      ensures !ok ==> CopyingRelease(old(View()), payload).Inconsistent?
      ensures memory == old(memory) - {payload.data} && after == EMPTY
      ensures reserveCount == old(reserveCount) && releaseCount == old(releaseCount) + 1
      ensures ok <==> releaseCount <= reserveCount
    {
      memory := memory - {payload.data};
      after := EMPTY;
      releaseCount := releaseCount + 1;
      ok := releaseCount <= reserveCount;
    }

    method IsClean() returns (clean: bool)
      ensures clean == View().IsClean()
    {
      clean := reserveCount == releaseCount;
    }
  }

  class MapPayloadPool {
    var memory: map<Address, seq<Byte>>
    var reservedPayloads: map<Address, nat>
    var reserveCount: nat
    var releaseCount: nat

    function View(): Pool
      reads this
    {
      Pool(memory, reservedPayloads, reserveCount, releaseCount)
    }

    constructor ()
      ensures View() == NEW_POOL
    {
      memory, reservedPayloads, reserveCount, releaseCount := map[], map[], 0, 0;
    }

    method GetPayload(garbage: seq<Byte>, a: Address, target: Payload) returns (ok: bool, payload: Payload)
      modifies this
      ensures ok ==> MappedGet(old(View()), garbage, a, target) == Done(View(), payload)
      ensures !ok ==> MappedGet(old(View()), garbage, a, target).Refused? && View() == old(View())
      ensures ok <==> garbage != []
      ensures ok ==>
                && payload == target.(data := a, maxSize := |garbage|) && memory == old(memory)[a := garbage]
                && reservedPayloads == old(reservedPayloads)[a := 1]
                && reserveCount == old(reserveCount) + 1 && releaseCount == old(releaseCount)
    {
      payload := target;
      if garbage == [] {
        return false, payload;
      }
      memory := memory[a := garbage];
      reserveCount := reserveCount + 1;
      payload := payload.(data := a, maxSize := |garbage|);
      reservedPayloads := reservedPayloads[a := 1];
      ok := true;
    }

    method ReferencePayload(src: Payload) returns (ok: bool, target: Payload)
      requires src.data in memory && src.length <= |memory[src.data]| && src.length <= src.maxSize
      modifies this
      ensures forall garbage, a | |garbage| == src.maxSize ::
                var r := GetReference(Mapped, old(View()), src, garbage, a);
                if ok then r == Done(View(), target) else r.Inconsistent? && View() == old(View())
      ensures ok <==> src.data in old(reservedPayloads)
      ensures ok ==>
                && target == src.(pos := 0)
                && reservedPayloads == old(reservedPayloads)[src.data := (old(reservedPayloads)[src.data] + 1) % WORD]
                && memory == old(memory) && reserveCount == old(reserveCount) && releaseCount == old(releaseCount)
    {
      if src.data !in reservedPayloads {
        return false, EMPTY;
      }
      reservedPayloads := reservedPayloads[src.data := (reservedPayloads[src.data] + 1) % WORD];
      ok, target := true, Payload(src.data, src.length, src.maxSize, 0);
    }

    method ReleasePayload(payload: Payload) returns (ok: bool, after: Payload)
      modifies this
      ensures ok ==> MappedRelease(old(View()), payload) == Done(View(), after) && after == EMPTY
      ensures !ok ==> MappedRelease(old(View()), payload).Inconsistent?
      ensures payload.data !in old(reservedPayloads) ==> !ok && View() == old(View())
      ensures payload.data in old(reservedPayloads) && old(reservedPayloads)[payload.data] % WORD != 1 ==>
                && ok && memory == old(memory) && releaseCount == old(releaseCount)
                && reservedPayloads.Keys == old(reservedPayloads).Keys
      ensures payload.data in old(reservedPayloads) && old(reservedPayloads)[payload.data] % WORD == 1 ==>
                && memory == old(memory) - {payload.data} && releaseCount == old(releaseCount) + 1
                && ok == (releaseCount <= reserveCount) && (ok ==> payload.data !in reservedPayloads)
    {
      if payload.data !in reservedPayloads {
        return false, payload;
      }
      var left := (reservedPayloads[payload.data] + WORD - 1) % WORD;
      reservedPayloads := reservedPayloads[payload.data := left];
      if left == 0 {
        memory := memory - {payload.data};
        releaseCount := releaseCount + 1;
        if releaseCount > reserveCount {
          return false, payload;
        }
        reservedPayloads := reservedPayloads - {payload.data};
        assert reservedPayloads == old(reservedPayloads) - {payload.data};
      }
      ok, after := true, EMPTY;
    }
  }

  class FastPayloadPool {
    var memory: map<Address, seq<Byte>>
    var headers: map<Address, nat>   // the counter in front of each block
    var reserveCount: nat
    var releaseCount: nat

    function View(): Pool
      reads this
    {
      Pool(memory, headers, reserveCount, releaseCount)
    }

    constructor ()
      ensures View() == NEW_POOL
    {
      memory, headers, reserveCount, releaseCount := map[], map[], 0, 0;
    }

    method GetPayload(garbage: seq<Byte>, a: Address, target: Payload) returns (ok: bool, payload: Payload)
      modifies this
      ensures ok ==> FastGet(old(View()), garbage, a, target) == Done(View(), payload)
      ensures !ok ==> FastGet(old(View()), garbage, a, target).Refused? && View() == old(View())
      ensures ok <==> garbage != []
      ensures ok ==>
                && payload == target.(data := a, maxSize := |garbage|) && memory == old(memory)[a := garbage]
                && headers == old(headers)[a := 1]
                && reserveCount == old(reserveCount) + 1 && releaseCount == old(releaseCount)
    {
      payload := target;
      if garbage == [] {
        return false, payload;
      }
      memory := memory[a := garbage];
      headers := headers[a := 1];
      payload := payload.(data := a, maxSize := |garbage|);
      reserveCount := reserveCount + 1;
      ok := true;
    }

    method ReferencePayload(src: Payload) returns (target: Payload)
      requires src.data in memory && src.length <= |memory[src.data]| && src.length <= src.maxSize
      requires src.data in headers
      modifies this
      ensures forall garbage, a | |garbage| == src.maxSize ::
                GetReference(Fast, old(View()), src, garbage, a) == Done(View(), target)
      ensures target == src.(pos := 0)
      ensures headers == old(headers)[src.data := (old(headers)[src.data] + 1) % WORD]
      ensures memory == old(memory) && reserveCount == old(reserveCount) && releaseCount == old(releaseCount)
    {
      headers := headers[src.data := (headers[src.data] + 1) % WORD];
      target := Payload(src.data, src.length, src.maxSize, 0);
    }

    /** The first access of a release: the counter is lowered, its new value not looked at. */
    method DecrementReference(payload: Payload)
      requires payload.data in headers
      modifies this`headers
      ensures headers == old(headers)[payload.data := (old(headers)[payload.data] + WORD - 1) % WORD]
    {
      headers := headers[payload.data := (headers[payload.data] + WORD - 1) % WORD];
    }

    /** The second: the counter is read again, and the block freed if it says zero. */
    method FreeIfUnreferenced(payload: Payload) returns (ok: bool, after: Payload)
      requires payload.data in headers
      modifies this
      ensures old(headers)[payload.data] != 0 ==> ok && View() == old(View())
      ensures old(headers)[payload.data] == 0 ==>
                memory == old(memory) - {payload.data} && headers == old(headers) - {payload.data}
                && reserveCount == old(reserveCount) && releaseCount == old(releaseCount) + 1
                && ok == (releaseCount <= reserveCount)
      ensures ok ==> after == EMPTY
    {
      if headers[payload.data] == 0 {
        memory := memory - {payload.data};
        headers := headers - {payload.data};
        releaseCount := releaseCount + 1;
        if releaseCount > reserveCount {
          return false, payload;
        }
      }
      ok, after := true, EMPTY;
    }

    /** A release that nobody disturbs between its two accesses. */
    method ReleasePayload(payload: Payload) returns (ok: bool, after: Payload)
      requires payload.data in headers
      modifies this
      ensures ok ==> FastRelease(old(View()), payload) == Done(View(), after)
      ensures !ok ==> FastRelease(old(View()), payload).Inconsistent?
    {
      DecrementReference(payload);
      ghost var left := headers;
      ok, after := FreeIfUnreferenced(payload);
      assert left - {payload.data} == old(headers) - {payload.data};
    }
  }
}
