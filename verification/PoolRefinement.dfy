/** The counted pools cannot be told from the copying one, and every block is freed exactly once. */
module PoolRefinement {
  import opened DdsPipeTypes
  import opened PayloadPools

  type Handle = nat

  /** What a client sees through a handle. */
  datatype Content = Content(bytes: seq<Byte>, maxSize: nat)

  /** What clients ask of a pool.  `garbage` is what malloc left in the block. */
  datatype Op =
    | New(h: Handle, garbage: seq<Byte>)                      // get_payload(size, payload)
    | CopyIn(h: Handle, bytes: seq<Byte>, garbage: seq<Byte>) // get_payload from a foreign owner
    | Share(h: Handle, from: Handle)                          // get_payload from a payload of this pool
    | Fill(h: Handle, bytes: seq<Byte>)                       // the owner writes its bytes
    | Drop(h: Handle)                                         // release_payload

  /** A pool and the payloads its clients hold. */
  datatype World = World(pool: Pool, live: map<Handle, Payload>)

  const START := World(NEW_POOL, map[])

  function Holders(live: map<Handle, Payload>, a: Address): set<Handle> {
    set h | h in live && live[h].data == a
  }

  /** Used as documented: fresh addresses, live handles, sizes above zero, no write to shared data. */
  predicate Legal(kind: Kind, w: World, op: Op, a: Address) {
    match op
    case New(h, garbage) => h !in w.live && garbage != [] && a != NULL && a !in w.pool.memory
    case CopyIn(h, bytes, garbage) =>
      h !in w.live && garbage != [] && |bytes| <= |garbage| && a != NULL && a !in w.pool.memory
    case Share(h, from) =>
      && h !in w.live && from in w.live && a != NULL && a !in w.pool.memory
      && |Holders(w.live, w.live[from].data)| + 1 < WORD
    case Fill(h, bytes) =>
      h in w.live && |bytes| <= w.live[h].maxSize && Holders(w.live, w.live[h].data) == {h}
    case Drop(h) => h in w.live
  }

  /** Memory is exactly the blocks of the live handles, and each handle fits its block. */
  predicate MemoryInv(w: World) {
    && (forall h :: h in w.live ==> w.live[h].data in w.pool.memory && Fits(w.live[h], w.pool.memory[w.live[h].data]))
    && (forall a :: a in w.pool.memory ==> Holders(w.live, a) != {})
    && w.pool.reserved == w.pool.released + |w.pool.memory|
  }

  predicate Fits(p: Payload, block: seq<Byte>) {
    p.length <= p.maxSize == |block| && p.maxSize > 0
  }

  /** Each counter is the number of handles to its block; the copying pool gives each handle its own. */
  predicate CountInv(kind: Kind, w: World) {
    if kind.Copying? then
      && w.pool.refs == map[]
      && forall g, h :: g in w.live && h in w.live && w.live[g].data == w.live[h].data ==> g == h
    else
      && w.pool.refs.Keys == w.pool.memory.Keys
      && forall a :: a in w.pool.refs ==> w.pool.refs[a] == |Holders(w.live, a)| < WORD
  }

  predicate Consistent(kind: Kind, w: World) {
    MemoryInv(w) && CountInv(kind, w)
  }

  function Answer(kind: Kind, w: World, op: Op, a: Address): Outcome
    requires Consistent(kind, w) && Legal(kind, w, op, a)
  {
    match op
    case New(h, garbage) => Get(kind, w.pool, garbage, a, EMPTY)
    case CopyIn(h, bytes, garbage) => GetCopy(kind, w.pool, bytes, garbage, a)
    case Share(h, from) =>
      GetReference(kind, w.pool, w.live[from], w.pool.memory[w.live[from].data], a)
    case Fill(h, bytes) =>
      var p := w.live[h];
      Done(w.pool.(memory := w.pool.memory[p.data := Overwrite(w.pool.memory[p.data], bytes)]),
           p.(length := |bytes|))
    case Drop(h) => Release(kind, w.pool, w.live[h])
  }

  function Next(kind: Kind, w: World, op: Op, a: Address): World
    requires Consistent(kind, w) && Legal(kind, w, op, a) && Answer(kind, w, op, a).Done?
  {
    var r := Answer(kind, w, op, a);
    World(r.pool, if op.Drop? then w.live - {op.h} else w.live[op.h := r.payload])
  }

  /** What every live handle shows. */
  function Shows(w: World): map<Handle, Content>
    requires MemoryInv(w)
  {
    map h | h in w.live :: View(w.live[h], w.pool.memory[w.live[h].data])
  }

  function View(p: Payload, block: seq<Byte>): Content
    requires Fits(p, block)
  {
    Content(block[..p.length], p.maxSize)
  }

  /** The specification: a table of contents, without sharing. */
  function Spec(table: map<Handle, Content>, op: Op): map<Handle, Content> {
    match op
    case New(h, garbage) => table[h := Content([], |garbage|)]
    case CopyIn(h, bytes, garbage) => table[h := Content(bytes, |garbage|)]
    case Share(h, from) => if from in table then table[h := table[from]] else table
    case Fill(h, bytes) => if h in table then table[h := Content(bytes, table[h].maxSize)] else table
    case Drop(h) => table - {h}
  }

  // ----- One operation

  lemma HoldersAdded(live: map<Handle, Payload>, h: Handle, p: Payload, a: Address)
    requires h !in live
    ensures Holders(live[h := p], a) == Holders(live, a) + (if p.data == a then {h} else {})
    ensures h !in Holders(live, a)
  {
  }

  lemma HoldersDropped(live: map<Handle, Payload>, h: Handle, a: Address)
    requires h in live
    ensures Holders(live - {h}, a) == Holders(live, a) - {h}
  {
  }

  /** The world after a block for a new handle has been allocated and filled. */
  function WithBlock(kind: Kind, w: World, h: Handle, a: Address, length: nat, block: seq<Byte>): World {
    World(Pool(w.pool.memory[a := block],
               if kind.Copying? then w.pool.refs else w.pool.refs[a := 1],
               w.pool.reserved + 1, w.pool.released),
          w.live[h := Payload(a, length, |block|, 0)])
  }

  lemma BlockAdded(kind: Kind, w: World, h: Handle, a: Address, length: nat, block: seq<Byte>)
    requires Consistent(kind, w) && h !in w.live && a !in w.pool.memory && length <= |block| && block != []
    ensures MemoryInv(WithBlock(kind, w, h, a, length, block))
    ensures CountInv(kind, WithBlock(kind, w, h, a, length, block))
    ensures Shows(WithBlock(kind, w, h, a, length, block)) == Shows(w)[h := Content(block[..length], |block|)]
  {
    BlockKeepsMemory(kind, w, h, a, length, block);
    BlockShows(kind, w, h, a, length, block);
    UnallocatedIsUnheld(w, a);
    BlockKeepsCounts(kind, w, h, a, length, block);
  }

  lemma BlockKeepsMemory(kind: Kind, w: World, h: Handle, a: Address, length: nat, block: seq<Byte>)
    requires MemoryInv(w) && h !in w.live && a !in w.pool.memory && length <= |block| && block != []
    ensures MemoryInv(WithBlock(kind, w, h, a, length, block))
  {
    var t := WithBlock(kind, w, h, a, length, block);
    assert |t.pool.memory| == |w.pool.memory| + 1;
    forall b | b in t.pool.memory ensures Holders(t.live, b) != {} {
      HoldersAdded(w.live, h, t.live[h], b);
    }
  }

  lemma BlockShows(kind: Kind, w: World, h: Handle, a: Address, length: nat, block: seq<Byte>)
    requires MemoryInv(w) && MemoryInv(WithBlock(kind, w, h, a, length, block))
    requires a !in w.pool.memory && length <= |block| && block != []
    ensures Shows(WithBlock(kind, w, h, a, length, block)) == Shows(w)[h := Content(block[..length], |block|)]
  {
  }

  lemma BlockKeepsCounts(kind: Kind, w: World, h: Handle, a: Address, length: nat, block: seq<Byte>)
    requires CountInv(kind, w) && w.pool.refs.Keys == (if kind.Copying? then {} else w.pool.memory.Keys)
    requires h !in w.live && Holders(w.live, a) == {}
    ensures CountInv(kind, WithBlock(kind, w, h, a, length, block))
  {
    var t := WithBlock(kind, w, h, a, length, block);
    if kind.Copying? {
      forall g | g in w.live ensures w.live[g].data != a {
        assert g !in Holders(w.live, a);
      }
    } else {
      forall b | b in t.pool.refs ensures t.pool.refs[b] == |Holders(t.live, b)| < WORD {
        BlockCounted(w, h, a, length, block, b);
      }
    }
    hide Holders;
  }

  lemma BlockCounted(w: World, h: Handle, a: Address, length: nat, block: seq<Byte>, b: Address)
    requires h !in w.live && Holders(w.live, a) == {} && b in w.pool.refs.Keys + {a}
    requires b in w.pool.refs ==> w.pool.refs[b] == |Holders(w.live, b)| < WORD
    ensures w.pool.refs[a := 1][b] == |Holders(w.live[h := Payload(a, length, |block|, 0)], b)| < WORD
  {
    hide Holders;
    HoldersAdded(w.live, h, Payload(a, length, |block|, 0), b);
    assert |{h}| == 1;
  }

  /** Nobody holds a block that is not allocated. */
  lemma UnallocatedIsUnheld(w: World, a: Address)
    requires MemoryInv(w) && a !in w.pool.memory
    ensures Holders(w.live, a) == {}
  {
  }

  function BytesOf(w: World, op: Op): seq<Byte>
    requires MemoryInv(w) && (op.Share? ==> op.from in w.live)
  {
    match op
    case CopyIn(_, bytes, _) => bytes
    case Share(_, from) => w.pool.memory[w.live[from].data][..w.live[from].length]
    case _ => []
  }

  function GarbageOf(w: World, op: Op): seq<Byte>
    requires MemoryInv(w) && (op.Share? ==> op.from in w.live)
  {
    match op
    case New(_, garbage) => garbage
    case CopyIn(_, _, garbage) => garbage
    case Share(_, from) => w.pool.memory[w.live[from].data]
    case _ => []
  }

  /** A block allocated and then filled is one block. */
  lemma CopyShape(kind: Kind, pool: Pool, bytes: seq<Byte>, garbage: seq<Byte>, a: Address)
    requires |bytes| <= |garbage| && garbage != []
    ensures var block := Overwrite(garbage, bytes);
            GetCopy(kind, pool, bytes, garbage, a)
            == Done(Pool(pool.memory[a := block], if kind.Copying? then pool.refs else pool.refs[a := 1],
                         pool.reserved + 1, pool.released),
                    Payload(a, |bytes|, |block|, 0))
  {
    var block := Overwrite(garbage, bytes);
    assert pool.memory[a := garbage][a := block] == pool.memory[a := block];
    hide Overwrite;
  }

  lemma NewShape(kind: Kind, w: World, op: Op, a: Address)
    requires Consistent(kind, w) && Legal(kind, w, op, a)
    requires op.New? || op.CopyIn? || (op.Share? && kind.Copying?)
    ensures Answer(kind, w, op, a).Done?
    ensures Next(kind, w, op, a)
            == WithBlock(kind, w, op.h, a, |BytesOf(w, op)|, Overwrite(GarbageOf(w, op), BytesOf(w, op)))
  {
    var bytes, garbage := BytesOf(w, op), GarbageOf(w, op);
    if op.New? {
      assert Overwrite(garbage, bytes) == garbage;
    } else {
      CopyShape(kind, w.pool, bytes, garbage, a);
      hide Holders, Fits, GetCopy, Overwrite;
    }
  }

  lemma NewBlock(kind: Kind, w: World, op: Op, a: Address)
    requires Consistent(kind, w) && Legal(kind, w, op, a)
    requires op.New? || op.CopyIn? || (op.Share? && kind.Copying?)
    ensures Answer(kind, w, op, a).Done?
    ensures Consistent(kind, Next(kind, w, op, a))
    ensures Shows(Next(kind, w, op, a)) == Spec(Shows(w), op)
  {
    NewShape(kind, w, op, a);
    var bytes, garbage := BytesOf(w, op), GarbageOf(w, op);
    BlockAdded(kind, w, op.h, a, |bytes|, Overwrite(garbage, bytes));
    assert Overwrite(garbage, bytes)[..|bytes|] == bytes;
  }

  /** One more handle to an allocated block. */
  function WithHandle(w: World, h: Handle, from: Handle): World
    requires from in w.live && w.live[from].data in w.pool.refs
  {
    var a := w.live[from].data;
    World(w.pool.(refs := w.pool.refs[a := w.pool.refs[a] + 1]), w.live[h := w.live[from].(pos := 0)])
  }

  lemma ShareKeepsCounts(kind: Kind, w: World, h: Handle, from: Handle)
    requires CountInv(kind, w) && !kind.Copying? && h !in w.live && from in w.live
    requires w.live[from].data in w.pool.refs && |Holders(w.live, w.live[from].data)| + 1 < WORD
    ensures CountInv(kind, WithHandle(w, h, from))
  {
    var t := WithHandle(w, h, from);
    forall b | b in t.pool.refs ensures t.pool.refs[b] == |Holders(t.live, b)| < WORD {
      HoldersAdded(w.live, h, t.live[h], b);
    }
  }

  lemma ShareKeepsMemory(w: World, h: Handle, from: Handle)
    requires MemoryInv(w) && h !in w.live && from in w.live && w.live[from].data in w.pool.refs
    ensures MemoryInv(WithHandle(w, h, from))
    ensures Shows(WithHandle(w, h, from)) == Shows(w)[h := Shows(w)[from]]
  {
    var t := WithHandle(w, h, from);
    forall b | b in t.pool.memory ensures Holders(t.live, b) != {} {
      HoldersAdded(w.live, h, t.live[h], b);
    }
  }

  lemma ShareShape(kind: Kind, w: World, op: Op, a: Address)
    requires Consistent(kind, w) && Legal(kind, w, op, a) && op.Share? && !kind.Copying?
    ensures w.live[op.from].data in w.pool.refs
    ensures Answer(kind, w, op, a).Done?
    ensures Next(kind, w, op, a) == WithHandle(w, op.h, op.from)
  {
    assert w.live[op.from].data in w.pool.refs.Keys;
  }

  lemma SharedBlock(kind: Kind, w: World, op: Op, a: Address)
    requires Consistent(kind, w) && Legal(kind, w, op, a) && op.Share? && !kind.Copying?
    ensures Answer(kind, w, op, a).Done?
    ensures Next(kind, w, op, a) == WithHandle(w, op.h, op.from)
    ensures Consistent(kind, Next(kind, w, op, a))
    ensures Shows(Next(kind, w, op, a)) == Spec(Shows(w), op)
  {
    ShareShape(kind, w, op, a);
    ShareKeepsCounts(kind, w, op.h, op.from);
    ShareKeepsMemory(w, op.h, op.from);
  }

  lemma FillIsPrivate(w: World, h: Handle)
    requires h in w.live && Holders(w.live, w.live[h].data) == {h}
    ensures forall g :: g in w.live && g != h ==> w.live[g].data != w.live[h].data
  {
    forall g | g in w.live && g != h ensures w.live[g].data != w.live[h].data {
      assert g !in Holders(w.live, w.live[h].data);
    }
  }

  /** Replacing a payload by one with the same pointer changes no holder. */
  lemma SamePointer(live: map<Handle, Payload>, h: Handle, p: Payload, a: Address)
    requires h in live && p.data == live[h].data
    ensures Holders(live[h := p], a) == Holders(live, a)
  {
  }

  /** The world after the only holder of a block has written it. */
  function WithBytes(w: World, h: Handle, bytes: seq<Byte>): World
    requires MemoryInv(w) && h in w.live && |bytes| <= w.live[h].maxSize
  {
    var a := w.live[h].data;
    World(w.pool.(memory := w.pool.memory[a := Overwrite(w.pool.memory[a], bytes)]),
          w.live[h := w.live[h].(length := |bytes|)])
  }

  lemma FillKeepsCounts(kind: Kind, w: World, h: Handle, bytes: seq<Byte>)
    requires Consistent(kind, w) && h in w.live && |bytes| <= w.live[h].maxSize
    ensures CountInv(kind, WithBytes(w, h, bytes))
  {
    var t := WithBytes(w, h, bytes);
    assert t.pool.memory.Keys == w.pool.memory.Keys;
    forall b ensures Holders(t.live, b) == Holders(w.live, b) {
      SamePointer(w.live, h, t.live[h], b);
    }
  }

  lemma FillKeepsMemory(w: World, h: Handle, bytes: seq<Byte>)
    requires MemoryInv(w) && h in w.live && |bytes| <= w.live[h].maxSize
    requires forall g :: g in w.live && g != h ==> w.live[g].data != w.live[h].data
    ensures MemoryInv(WithBytes(w, h, bytes))
    ensures Shows(WithBytes(w, h, bytes)) == Shows(w)[h := Content(bytes, w.live[h].maxSize)]
  {
    var t := WithBytes(w, h, bytes);
    assert |t.pool.memory| == |w.pool.memory| by {
      assert t.pool.memory.Keys == w.pool.memory.Keys;
    }
    forall b | b in t.pool.memory ensures Holders(t.live, b) != {} {
      SamePointer(w.live, h, t.live[h], b);
    }
  }

  lemma FilledBlock(kind: Kind, w: World, op: Op, a: Address)
    requires Consistent(kind, w) && Legal(kind, w, op, a) && op.Fill?
    ensures Answer(kind, w, op, a).Done?
    ensures Next(kind, w, op, a) == WithBytes(w, op.h, op.bytes)
    ensures Consistent(kind, Next(kind, w, op, a))
    ensures Shows(Next(kind, w, op, a)) == Spec(Shows(w), op)
  {
    FillIsPrivate(w, op.h);
    FillKeepsCounts(kind, w, op.h, op.bytes);
    FillKeepsMemory(w, op.h, op.bytes);
  }

  /** A handle is dropped, and its block with it when it was the last. */
  function WithoutHandle(kind: Kind, w: World, h: Handle): World
    requires h in w.live && (kind.Copying? || w.live[h].data in w.pool.refs)
  {
    var a := w.live[h].data;
    var last := Holders(w.live, a) == {h};
    World(Pool(if last then w.pool.memory - {a} else w.pool.memory,
               if kind.Copying? then w.pool.refs
               else if last then w.pool.refs - {a}
               else w.pool.refs[a := |Holders(w.live, a)| - 1],
               w.pool.reserved, w.pool.released + if last then 1 else 0),
          w.live - {h})
  }

  lemma LastHolder(live: map<Handle, Payload>, h: Handle)
    requires h in live
    ensures |Holders(live, live[h].data)| >= 1
    ensures |Holders(live, live[h].data)| == 1 <==> Holders(live, live[h].data) == {h}
    ensures |Holders(live, live[h].data) - {h}| == |Holders(live, live[h].data)| - 1
  {
    var holders := Holders(live, live[h].data);
    assert h in holders;
    if |holders| == 1 {
      assert |holders - {h}| == 0;
      assert holders == {h};
    }
  }

  lemma DropShapeCopying(w: World, h: Handle)
    requires Consistent(Copying, w) && h in w.live
    ensures CopyingRelease(w.pool, w.live[h]) == Done(WithoutHandle(Copying, w, h).pool, EMPTY)
  {
    assert w.live[h].data in w.pool.memory.Keys;
    OnlyHolder(w, h);
    hide Holders, Fits;
  }

  /** What the counter of a held block says, and what is left of it after one release. */
  lemma CounterOfHeld(kind: Kind, w: World, h: Handle)
    requires Consistent(kind, w) && h in w.live && !kind.Copying?
    ensures var block, n := w.live[h].data, |Holders(w.live, w.live[h].data)|;
            && block in w.pool.refs && w.pool.refs[block] == n && 1 <= n < WORD && (n + WORD - 1) % WORD == n - 1
            && (n == 1 <==> Holders(w.live, block) == {h})
            && (n == 1 ==> w.pool.released < w.pool.reserved)
  {
    var block := w.live[h].data;
    assert block in w.pool.memory.Keys;
    hide Holders, Fits;
    LastHolder(w.live, h);
    OneLess(|Holders(w.live, block)|);
  }

  lemma DropShapeCounting(kind: Kind, w: World, h: Handle)
    requires Consistent(kind, w) && h in w.live && !kind.Copying?
    ensures Release(kind, w.pool, w.live[h]) == Done(WithoutHandle(kind, w, h).pool, EMPTY)
  {
    hide Consistent, Holders;
    CounterOfHeld(kind, w, h);
  }

  lemma OneLess(n: nat)
    requires 0 < n < WORD
    ensures (n + WORD - 1) % WORD == n - 1
  {
  }

  lemma DropShape(kind: Kind, w: World, h: Handle)
    requires Consistent(kind, w) && h in w.live
    ensures Release(kind, w.pool, w.live[h]) == Done(WithoutHandle(kind, w, h).pool, EMPTY)
  {
    if kind.Copying? {
      DropShapeCopying(w, h);
    } else {
      DropShapeCounting(kind, w, h);
    }
    hide CopyingRelease, MappedRelease, FastRelease, WithoutHandle, MemoryInv, CountInv;
  }

  lemma OnlyHolder(w: World, h: Handle)
    requires CountInv(Copying, w) && h in w.live
    ensures Holders(w.live, w.live[h].data) == {h}
  {
    forall g | g in Holders(w.live, w.live[h].data) ensures g == h {
    }
    assert h in Holders(w.live, w.live[h].data);
  }

  lemma DropKeepsHolders(kind: Kind, w: World, h: Handle)
    requires MemoryInv(w) && h in w.live && (kind.Copying? || w.live[h].data in w.pool.refs)
    ensures forall b :: b in WithoutHandle(kind, w, h).pool.memory ==>
                          Holders(WithoutHandle(kind, w, h).live, b) != {}
  {
    var t := WithoutHandle(kind, w, h);
    var block := w.live[h].data;
    assert h in Holders(w.live, block);
    forall b | b in t.pool.memory ensures Holders(t.live, b) != {} {
      HoldersDropped(w.live, h, b);
      assert b != block ==> h !in Holders(w.live, b);
    }
  }

  lemma DropLeavesOthers(kind: Kind, w: World, h: Handle)
    requires MemoryInv(w) && h in w.live && (kind.Copying? || w.live[h].data in w.pool.refs)
    ensures var t := WithoutHandle(kind, w, h);
            && t.live == w.live - {h}
            && forall g :: g in t.live ==>
                 && w.live[g].data in t.pool.memory
                 && t.pool.memory[w.live[g].data] == w.pool.memory[w.live[g].data]
  {
    if Holders(w.live, w.live[h].data) == {h} {
      FillIsPrivate(w, h);
    }
    hide Holders, Fits;
  }

  lemma DropCountsBlocks(kind: Kind, w: World, h: Handle)
    requires MemoryInv(w) && h in w.live && (kind.Copying? || w.live[h].data in w.pool.refs)
    ensures var pool := WithoutHandle(kind, w, h).pool; pool.reserved == pool.released + |pool.memory|
  {
    hide Holders, Fits;
    var t, block := WithoutHandle(kind, w, h), w.live[h].data;
    if Holders(w.live, block) == {h} {
      assert t.pool.memory.Keys == w.pool.memory.Keys - {block};
      assert |t.pool.memory| == |w.pool.memory| - 1;
    }
  }

  lemma DropKeepsBlocks(kind: Kind, w: World, h: Handle)
    requires MemoryInv(w) && h in w.live && (kind.Copying? || w.live[h].data in w.pool.refs)
    ensures MemoryInv(WithoutHandle(kind, w, h))
  {
    hide WithoutHandle, Holders, Fits;
    DropKeepsHolders(kind, w, h);
    DropLeavesOthers(kind, w, h);
    DropCountsBlocks(kind, w, h);
  }

  lemma DropShows(kind: Kind, w: World, h: Handle)
    requires MemoryInv(w) && h in w.live && (kind.Copying? || w.live[h].data in w.pool.refs)
    requires MemoryInv(WithoutHandle(kind, w, h))
    ensures Shows(WithoutHandle(kind, w, h)) == Shows(w) - {h}
  {
    hide WithoutHandle, Holders, View;
    DropLeavesOthers(kind, w, h);
  }

  lemma DropKeepsMemory(kind: Kind, w: World, h: Handle)
    requires MemoryInv(w) && h in w.live && (kind.Copying? || w.live[h].data in w.pool.refs)
    ensures MemoryInv(WithoutHandle(kind, w, h))
    ensures Shows(WithoutHandle(kind, w, h)) == Shows(w) - {h}
  {
    DropKeepsBlocks(kind, w, h);
    DropShows(kind, w, h);
  }

  lemma DropKeepsCounts(kind: Kind, w: World, h: Handle)
    requires Consistent(kind, w) && h in w.live
    ensures CountInv(kind, WithoutHandle(kind, w, h))
  {
    var t := WithoutHandle(kind, w, h);
    var block := w.live[h].data;
    LastHolder(w.live, h);
    if !kind.Copying? {
      assert t.pool.refs.Keys == t.pool.memory.Keys;
      forall b | b in t.pool.refs ensures t.pool.refs[b] == |Holders(t.live, b)| < WORD {
        HoldersDropped(w.live, h, b);
        assert b != block ==> Holders(w.live, b) - {h} == Holders(w.live, b);
      }
    }
  }

  lemma DroppedHandle(kind: Kind, w: World, op: Op, a: Address)
    requires Consistent(kind, w) && Legal(kind, w, op, a) && op.Drop?
    ensures Answer(kind, w, op, a).Done?
    ensures Next(kind, w, op, a) == WithoutHandle(kind, w, op.h)
    ensures Consistent(kind, Next(kind, w, op, a))
    ensures Shows(Next(kind, w, op, a)) == Spec(Shows(w), op)
  {
    DropShape(kind, w, op.h);
    DropKeepsMemory(kind, w, op.h);
    DropKeepsCounts(kind, w, op.h);
  }

  /**
   One operation, used as documented, on any of the three pools: it succeeds (the over-release exception
   is not reached), every live handle shows what the specification says, memory is exactly the blocks
   with a live handle, and each counter is the number of handles to its block.
   */
  lemma OperationRefines(kind: Kind, w: World, op: Op, a: Address)
    requires Consistent(kind, w) && Legal(kind, w, op, a)
    ensures Answer(kind, w, op, a).Done?
    ensures Consistent(kind, Next(kind, w, op, a))
    ensures Shows(Next(kind, w, op, a)) == Spec(Shows(w), op)
  {
    match op
    case New(_, _) => NewBlock(kind, w, op, a);
    case CopyIn(_, _, _) => NewBlock(kind, w, op, a);
    case Share(_, _) =>
      if kind.Copying? { NewBlock(kind, w, op, a); } else { SharedBlock(kind, w, op, a); }
    case Fill(_, _) => FilledBlock(kind, w, op, a);
    case Drop(_) => DroppedHandle(kind, w, op, a);
  }

  // ----- Whole runs

  lemma OperationSucceeds(kind: Kind, w: World, op: Op, a: Address)
    requires Consistent(kind, w) && Legal(kind, w, op, a)
    ensures Answer(kind, w, op, a).Done? && Consistent(kind, Next(kind, w, op, a))
  {
    OperationRefines(kind, w, op, a);
  }

  predicate LegalRun(kind: Kind, w: World, ops: seq<Op>, malloc: seq<Address>)
    requires Consistent(kind, w) && |malloc| == |ops|
    decreases |ops|
  {
    ops == [] ||
    (Legal(kind, w, ops[0], malloc[0]) &&
     (OperationSucceeds(kind, w, ops[0], malloc[0]);
      LegalRun(kind, Next(kind, w, ops[0], malloc[0]), ops[1..], malloc[1..])))
  }

  function After(kind: Kind, w: World, ops: seq<Op>, malloc: seq<Address>): (t: World)
    requires Consistent(kind, w) && |malloc| == |ops| && LegalRun(kind, w, ops, malloc)
    ensures Consistent(kind, t)
    decreases |ops|
  {
    if ops == [] then w
    else
      OperationSucceeds(kind, w, ops[0], malloc[0]);
      After(kind, Next(kind, w, ops[0], malloc[0]), ops[1..], malloc[1..])
  }

  function SpecRun(table: map<Handle, Content>, ops: seq<Op>): map<Handle, Content>
    decreases |ops|
  {
    if ops == [] then table else SpecRun(Spec(table, ops[0]), ops[1..])
  }

  lemma {:induction false} RunRefines(kind: Kind, w: World, ops: seq<Op>, malloc: seq<Address>)
    requires Consistent(kind, w) && |malloc| == |ops| && LegalRun(kind, w, ops, malloc)
    ensures Shows(After(kind, w, ops, malloc)) == SpecRun(Shows(w), ops)
    decreases |ops|
  {
    if ops != [] {
      OperationRefines(kind, w, ops[0], malloc[0]);
      RunRefines(kind, Next(kind, w, ops[0], malloc[0]), ops[1..], malloc[1..]);
    }
  }

  /** A pool is clean exactly when no handle is live. */
  lemma CleanMeansNoHandle(kind: Kind, w: World)
    requires Consistent(kind, w)
    ensures w.pool.IsClean() <==> w.live == map[]
  {
    if w.live != map[] {
      var h :| h in w.live;
      assert w.live[h].data in w.pool.memory.Keys;
      assert |w.pool.memory.Keys| > 0;
    } else {
      assert w.pool.memory.Keys == {};
    }
  }

  /** Every run starts from a consistent world. */
  lemma StartIsConsistent(kind: Kind)
    ensures Consistent(kind, START) && Shows(START) == map[]
  {
  }

  lemma SameTableSameCleanliness(kind: Kind, w: World, c: World)
    requires Consistent(kind, w) && Consistent(Copying, c) && Shows(w) == Shows(c)
    ensures w.pool.IsClean() <==> c.pool.IsClean()
  {
    hide MemoryInv, CountInv, Shows;
    CleanMeansNoHandle(kind, w);
    CleanMeansNoHandle(Copying, c);
    ShowsTheLive(w);
    ShowsTheLive(c);
  }

  lemma ShowsTheLive(w: World)
    requires MemoryInv(w)
    ensures Shows(w).Keys == w.live.Keys && (w.live == map[] <==> w.live.Keys == {})
  {
  }

  /**
   Over any sequence of operations legal for the pools, whatever addresses malloc hands out to each, the
   pool that counts (in a map or in headers) shows every live handle the bytes, length and max_size the
   copying pool shows, and both agree on being clean.
   */
  lemma PoolsAreIndistinguishable(kind: Kind, s: World, ops: seq<Op>, malloc: seq<Address>, copyMalloc: seq<Address>)
    requires |malloc| == |copyMalloc| == |ops| && s == START
    requires Consistent(kind, s) && LegalRun(kind, s, ops, malloc)
    requires Consistent(Copying, s) && LegalRun(Copying, s, ops, copyMalloc)
    ensures Shows(After(kind, s, ops, malloc)) == Shows(After(Copying, s, ops, copyMalloc))
    ensures After(kind, s, ops, malloc).pool.IsClean() <==> After(Copying, s, ops, copyMalloc).pool.IsClean()
  {
    RunRefines(kind, s, ops, malloc);
    RunRefines(Copying, s, ops, copyMalloc);
    SameTableSameCleanliness(kind, After(kind, s, ops, malloc), After(Copying, s, ops, copyMalloc));
  }

  /** The size must not be zero: the counted pools refuse such a request, the copying one grants it. */
  lemma ZeroSizeTellsThemApart(kind: Kind, pool: Pool, garbage: seq<Byte>, a: Address, target: Payload)
    requires kind != Copying
    ensures Get(kind, pool, garbage, a, target).Done? == Get(Copying, pool, garbage, a, target).Done?
            <==> garbage != []
  {
  }
}
