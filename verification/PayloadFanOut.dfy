/** One message forwarded to many writers: one block, shared by all, freed once. */
module PayloadFanOut {
  import opened DdsPipeTypes
  import opened PayloadPools
  import opened PoolRefinement

  // ----- Cache changes: PayloadPool's side towards Fast DDS

  /** A cache change knows whether this pool owns its payload. */
  datatype CacheChange = CacheChange(ownedByPool: bool, payload: Payload)

  datatype ChangeOutcome = Changed(pool: Pool, change: CacheChange) | Failed | Thrown

  /** Releasing a change that this pool does not own is an error. */
  function ReleaseChange(kind: Kind, pool: Pool, change: CacheChange): ChangeOutcome
    requires kind.Fast? && change.ownedByPool ==> change.payload.data in pool.refs
  {
    if !change.ownedByPool then Thrown
    else
      match Release(kind, pool, change.payload)
      case Done(p, e) => Changed(p, CacheChange(false, e))
      case Refused => Failed
      case Inconsistent => Thrown
  }

  /** A change of this pool is released once: the pool gives it up, and a second release is an error. */
  lemma ChangeIsReleasedOnce(kind: Kind, w: World, h: Handle)
    requires Consistent(kind, w) && h in w.live
    requires kind.Fast? ==> w.live[h].data in w.pool.refs
    ensures var released := ReleaseChange(kind, w.pool, CacheChange(true, w.live[h]));
            && released.Changed? && released.change == CacheChange(false, EMPTY)
            && ReleaseChange(kind, released.pool, released.change).Thrown?
  {
    DropShape(kind, w, h);
  }

  /** The destructor of the routed data: an owned payload is released only if it has length. */
  function Destroy(kind: Kind, pool: Pool, owned: bool, payload: Payload): Outcome
    requires kind.Fast? && owned ==> payload.data in pool.refs
  {
    if owned && payload.length > 0 then Release(kind, pool, payload) else Done(pool, payload)
  }

  /** A live payload's reference is given back by the destructor exactly when its length is not zero. */
  lemma DestructorReleasesExactlyNonEmpty(kind: Kind, w: World, h: Handle)
    requires Consistent(kind, w) && h in w.live
    requires kind.Fast? ==> w.live[h].data in w.pool.refs
    ensures Destroy(kind, w.pool, true, w.live[h]) == Release(kind, w.pool, w.live[h])
            <==> w.live[h].length > 0
    ensures w.live[h].length == 0 ==> Destroy(kind, w.pool, true, w.live[h]) == Done(w.pool, w.live[h])
    ensures Destroy(kind, w.pool, false, w.live[h]) == Done(w.pool, w.live[h])
  {
    DropShape(kind, w, h);
  }

  /**
   A DDS writer fetches the payload of the change it is making from its pool; the mediator makes it fetch
   the payload of the data being written, which the pool then shares instead of copying.
   */
  class PayloadPoolMediator {
    const pool: FastPayloadPool
    var payload: Payload

    constructor (pool: FastPayloadPool)
      ensures this.pool == pool
    {
      this.pool := pool;
      this.payload := EMPTY;
    }

    /** Saves the payload; the writer then calls GetPayload, whatever size it asks for. */
    method Write(data: Payload) returns (change: CacheChange)
      requires data.data in pool.memory && data.data in pool.headers
      requires data.length <= |pool.memory[data.data]| && data.length <= data.maxSize
      modifies this, pool
      ensures payload == data
      ensures change == CacheChange(true, data.(pos := 0))
      ensures pool.View()
           == old(pool.View()).(refs := old(pool.headers)[data.data := (old(pool.headers[data.data]) + 1) % WORD])
    {
      payload := data;
      change := GetPayload(data.maxSize);
    }

    method GetPayload(size: nat) returns (change: CacheChange)
      requires payload.data in pool.memory && payload.data in pool.headers
      requires payload.length <= |pool.memory[payload.data]| && payload.length <= payload.maxSize
      modifies pool
      ensures change == CacheChange(true, payload.(pos := 0))
      ensures pool.View()
           == old(pool.View()).(refs := old(pool.headers)[payload.data := (old(pool.headers[payload.data]) + 1) % WORD])
    {
      ghost var garbage := seq(payload.maxSize, i => 0 as Byte);
      var target := pool.ReferencePayload(payload);
      assert GetReference(Fast, old(pool.View()), payload, garbage, 1) == Done(pool.View(), target);
      change := CacheChange(true, target);
    }
  }

  // ----- Fan-out

  function Elements(s: seq<Handle>): set<Handle> {
    set x | x in s
  }

  predicate Distinct(s: seq<Handle>) {
    forall i, j :: 0 <= i < j < |s| ==> s[i] != s[j]
  }

  /** One legal operation of the pool takes w to t. */
  predicate Steps(kind: Kind, w: World, op: Op, a: Address, t: World) {
    Consistent(kind, w) && Legal(kind, w, op, a) && Answer(kind, w, op, a).Done? && t == Next(kind, w, op, a)
  }

  /** The worlds between the releases of the handles in `order`, in that order. */
  predicate ReleasesAll(kind: Kind, worlds: seq<World>, order: seq<Handle>) {
    && |worlds| == |order| + 1
    && forall i :: 0 <= i < |order| ==> Steps(kind, worlds[i], Drop(order[i]), NULL, worlds[i + 1])
  }

  /** The worlds between the writes that share `from` with each handle of `targets`. */
  predicate SharesAll(kind: Kind, worlds: seq<World>, from: Handle, targets: seq<Handle>, malloc: seq<Address>) {
    && |worlds| == |targets| + 1 && |malloc| == |targets|
    && forall i :: 0 <= i < |targets| ==> Steps(kind, worlds[i], Share(targets[i], from), malloc[i], worlds[i + 1])
  }

  lemma ShareOne(kind: Kind, w: World, from: Handle, h: Handle, a: Address) returns (t: World)
    requires Consistent(kind, w) && Legal(kind, w, Share(h, from), a) && !kind.Copying?
    ensures Steps(kind, w, Share(h, from), a, t) && Consistent(kind, t)
    ensures t.live == w.live[h := w.live[from].(pos := 0)]
    ensures t.pool.memory == w.pool.memory && t.pool.reserved == w.pool.reserved && t.pool.released == w.pool.released
    ensures Holders(t.live, w.live[from].data) == Holders(w.live, w.live[from].data) + {h}
    ensures h !in Holders(w.live, w.live[from].data)
  {
    SharedBlock(kind, w, Share(h, from), a);
    t := Next(kind, w, Share(h, from), a);
    HoldersAdded(w.live, h, t.live[h], w.live[from].data);
  }

  lemma DropOne(kind: Kind, w: World, h: Handle) returns (t: World)
    requires Consistent(kind, w) && h in w.live && !kind.Copying?
    ensures Steps(kind, w, Drop(h), NULL, t) && Consistent(kind, t)
    ensures t.live == w.live - {h} && t.pool.reserved == w.pool.reserved
    ensures Holders(t.live, w.live[h].data) == Holders(w.live, w.live[h].data) - {h}
    ensures if Holders(w.live, w.live[h].data) == {h}
            then t.pool.memory == w.pool.memory - {w.live[h].data} && t.pool.released == w.pool.released + 1
            else t.pool.memory == w.pool.memory && t.pool.released == w.pool.released
  {
    DroppedHandle(kind, w, Drop(h), NULL);
    t := Next(kind, w, Drop(h), NULL);
    HoldersDropped(w.live, h, w.live[h].data);
  }

  lemma Unfold(s: seq<Handle>)
    requires s != [] && Distinct(s)
    ensures Elements(s) == {s[0]} + Elements(s[1..]) && s[0] !in Elements(s[1..])
    ensures Distinct(s[1..])
    ensures forall x :: x in s[1..] ==> x in s && x != s[0]
  {
    assert s == [s[0]] + s[1..];
  }

  lemma {:induction false} DistinctCount(s: seq<Handle>)
    requires Distinct(s)
    ensures |Elements(s)| == |s|
  {
    if s != [] {
      Unfold(s);
      DistinctCount(s[1..]);
    }
  }

  /** The block is allocated, and its counter says k. */
  predicate Counted(w: World, block: Address, k: nat) {
    block in w.pool.memory && block in w.pool.refs && w.pool.refs[block] == k
  }

  lemma CountOfHeld(kind: Kind, w: World, block: Address, order: seq<Handle>)
    requires Consistent(kind, w) && !kind.Copying? && Distinct(order)
    requires Elements(order) == Holders(w.live, block) && order != []
    ensures Counted(w, block, |order|)
    ensures order[0] in w.live && w.live[order[0]].data == block
    ensures Holders(w.live, block) == {order[0]} <==> |order| == 1
    ensures Elements(order[1..]) == Holders(w.live, block) - {order[0]}
  {
    DistinctCount(order);
    Unfold(order);
    if |order| > 1 {
      assert order[1] in Elements(order) && order[1] != order[0];
    } else {
      assert Elements(order) == {order[0]};
    }
  }

  /**
   The handles of a block are released in any order: before the i-th release the block is there with
   |order| - i references, and the last release, no earlier one, frees it.
   */
  lemma {:induction false} ReleaseInAnyOrder(kind: Kind, w: World, block: Address, order: seq<Handle>)
    returns (worlds: seq<World>)
    requires Consistent(kind, w) && !kind.Copying?
    requires Distinct(order) && order != [] && Elements(order) == Holders(w.live, block)
    ensures ReleasesAll(kind, worlds, order) && worlds[0] == w
    ensures forall i :: 0 <= i < |order| ==>
                          Counted(worlds[i], block, |order| - i) && worlds[i].pool.released == w.pool.released
    ensures var t := worlds[|order|];
            && t.pool.memory == w.pool.memory - {block} && t.live == w.live - Elements(order)
            && t.pool.reserved == w.pool.reserved && t.pool.released == w.pool.released + 1
    decreases |order|
  {
    hide MemoryInv, CountInv, Steps;
    CountOfHeld(kind, w, block, order);
    var t := DropOne(kind, w, order[0]);
    Unfold(order);
    if |order| == 1 {
      worlds := [w, t];
    } else {
      var rest := ReleaseInAnyOrder(kind, t, block, order[1..]);
      worlds := [w] + rest;
      assert worlds[|order|] == rest[|order| - 1];
      forall i | 0 <= i < |order|
        ensures Steps(kind, worlds[i], Drop(order[i]), NULL, worlds[i + 1])
        ensures Counted(worlds[i], block, |order| - i) && worlds[i].pool.released == w.pool.released
      {
        if i > 0 {
          assert worlds[i] == rest[i - 1] && order[i] == order[1..][i - 1];
          assert Steps(kind, rest[i - 1], Drop(order[1..][i - 1]), NULL, rest[i]);
        }
      }
    }
  }

  /** Any number of further handles to a block reserve nothing; every other payload stays as it was. */
  lemma {:induction false} ShareWithMany(kind: Kind, w: World, from: Handle, targets: seq<Handle>, malloc: seq<Address>)
    returns (worlds: seq<World>)
    requires Consistent(kind, w) && !kind.Copying? && from in w.live && |malloc| == |targets|
    requires Distinct(targets) && forall h :: h in targets ==> h !in w.live
    requires forall i :: 0 <= i < |malloc| ==> malloc[i] != NULL && malloc[i] !in w.pool.memory
    requires |Holders(w.live, w.live[from].data)| + |targets| < WORD
    ensures SharesAll(kind, worlds, from, targets, malloc) && worlds[0] == w
    ensures var t := worlds[|targets|];
            && Consistent(kind, t) && t.pool.memory == w.pool.memory
            && t.pool.reserved == w.pool.reserved && t.pool.released == w.pool.released
            && Holders(t.live, w.live[from].data) == Holders(w.live, w.live[from].data) + Elements(targets)
            && t.live - Elements(targets) == w.live - Elements(targets)
            && t.live.Keys == w.live.Keys + Elements(targets)
    decreases |targets|
  {
    hide MemoryInv, CountInv, Steps, Distinct, Elements, Holders;
    if targets == [] {
      worlds := [w];
      NoElements();
    } else {
      Unfold(targets);
      assert targets[0] in targets && from != targets[0];
      var t := ShareOne(kind, w, from, targets[0], malloc[0]);
      assert |Holders(t.live, t.live[from].data)| == |Holders(w.live, w.live[from].data)| + 1;
      var rest := ShareWithMany(kind, t, from, targets[1..], malloc[1..]);
      worlds := [w] + rest;
      MoreShares(kind, w, rest, from, targets, malloc);
      OthersKept(w.live, t.live, rest[|targets| - 1].live, targets);
    }
  }

  lemma NoElements()
    ensures Elements([]) == {}
  {
  }

  lemma MoreShares(kind: Kind, w: World, rest: seq<World>, from: Handle, targets: seq<Handle>, malloc: seq<Address>)
    requires targets != [] && |malloc| == |targets|
    requires SharesAll(kind, rest, from, targets[1..], malloc[1..])
    requires Steps(kind, w, Share(targets[0], from), malloc[0], rest[0])
    ensures SharesAll(kind, [w] + rest, from, targets, malloc)
  {
    hide Steps;
    var worlds := [w] + rest;
    forall i | 0 <= i < |targets|
      ensures Steps(kind, worlds[i], Share(targets[i], from), malloc[i], worlds[i + 1])
    {
      if i > 0 {
        assert Steps(kind, rest[i - 1], Share(targets[1..][i - 1], from), malloc[1..][i - 1], rest[i]);
      }
    }
  }

  lemma OthersKept(
    before: map<Handle, Payload>, mid: map<Handle, Payload>, after: map<Handle, Payload>, targets: seq<Handle>)
    requires targets != [] && Distinct(targets) && mid - {targets[0]} == before - {targets[0]}
    requires after - Elements(targets[1..]) == mid - Elements(targets[1..])
    ensures after - Elements(targets) == before - Elements(targets)
  {
    Unfold(targets);
    assert after - Elements(targets) == (after - Elements(targets[1..])) - {targets[0]};
    assert mid - Elements(targets) == (mid - {targets[0]}) - Elements(targets[1..]);
    assert before - Elements(targets) == (before - {targets[0]}) - Elements(targets[1..]);
  }

  lemma MessageArrives(kind: Kind, w: World, message: Handle, bytes: seq<Byte>, garbage: seq<Byte>, a: Address)
    returns (t: World)
    requires Consistent(kind, w) && Legal(kind, w, CopyIn(message, bytes, garbage), a)
    ensures Steps(kind, w, CopyIn(message, bytes, garbage), a, t) && Consistent(kind, t)
    ensures t.pool.memory == w.pool.memory[a := Overwrite(garbage, bytes)]
    ensures t.live == w.live[message := Payload(a, |bytes|, |garbage|, 0)]
    ensures t.pool.reserved == w.pool.reserved + 1 && t.pool.released == w.pool.released
    ensures Holders(t.live, a) == {message}
  {
    hide MemoryInv, CountInv, Holders, Answer, Next, Shows, Spec;
    var op := CopyIn(message, bytes, garbage);
    NewShape(kind, w, op, a);
    OperationSucceeds(kind, w, op, a);
    t := Next(kind, w, op, a);
    UnallocatedIsUnheld(w, a);
    HoldersAdded(w.live, message, t.live[message], a);
  }

  /**
   A message of positive length is copied once into a counting pool and written to any number of writers.
   Whatever the order in which the writers and the destructor of the message give their references back,
   exactly one block is reserved, it is freed by the last of them, and the pool ends as it was.
   */
  lemma FanOutReservesAndFreesOnce(
    kind: Kind, w: World, message: Handle, bytes: seq<Byte>, garbage: seq<Byte>, a: Address,
    targets: seq<Handle>, malloc: seq<Address>, order: seq<Handle>)
    returns (start: World, shares: seq<World>, releases: seq<World>)
    requires Consistent(kind, w) && !kind.Copying?
    requires bytes != [] && Legal(kind, w, CopyIn(message, bytes, garbage), a)
    requires Distinct(targets) && |targets| + 1 < WORD && |malloc| == |targets|
    requires forall h :: h in targets ==> h !in w.live && h != message
    requires forall i :: 0 <= i < |malloc| ==> malloc[i] != NULL && malloc[i] != a && malloc[i] !in w.pool.memory
    requires Distinct(order) && Elements(order) == {message} + Elements(targets)
    ensures Steps(kind, w, CopyIn(message, bytes, garbage), a, start)
    ensures SharesAll(kind, shares, message, targets, malloc) && shares[0] == start
    ensures ReleasesAll(kind, releases, order) && releases[0] == shares[|targets|]
    ensures forall i :: 0 <= i < |order| ==> Counted(releases[i], a, |order| - i)
    ensures var t := releases[|order|];
            && t.pool.memory == w.pool.memory && t.live == w.live
            && t.pool.reserved == w.pool.reserved + 1 && t.pool.released == w.pool.released + 1
  {
    hide MemoryInv, CountInv, Steps, Holders, Counted, Elements, Distinct;
    start := MessageArrives(kind, w, message, bytes, garbage, a);
    assert |{message}| == 1;
    assert |Holders(start.live, a)| == 1;
    shares := ShareWithMany(kind, start, message, targets, malloc);
    NoElements();
    releases := ReleaseInAnyOrder(kind, shares[|targets|], a, order);
    FanOutCleansUp(w.live, start.live, shares[|targets|].live, message, targets, order);
    assert start.pool.memory - {a} == w.pool.memory;
  }

  lemma FanOutCleansUp(w: map<Handle, Payload>, start: map<Handle, Payload>, shared: map<Handle, Payload>,
                       message: Handle, targets: seq<Handle>, order: seq<Handle>)
    requires message !in w && forall h :: h in targets ==> h !in w
    requires start - {message} == w
    requires shared - Elements(targets) == start - Elements(targets)
    requires Elements(order) == {message} + Elements(targets)
    ensures shared - Elements(order) == w
  {
    assert shared - Elements(order) == (shared - Elements(targets)) - {message};
    assert start - Elements(order) == (start - Elements(targets)) - {message};
    assert start - Elements(order) == (start - {message}) - Elements(targets);
    assert w - Elements(targets) == w;
  }
}
