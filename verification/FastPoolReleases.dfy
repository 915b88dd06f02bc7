/**
 One block of the header-counting pool, with its payloads released from several threads.

 The counter is atomic, but a release makes two accesses to it: it decrements, and then reads again to test
 for zero.  One step below is one access, so releases may overlap; whoever reads zero frees the block.
 */
module FastPoolReleases {
  import opened DdsPipeTypes
  import opened PayloadPools
  import opened PoolRefinement
  import opened PayloadFanOut

  /**
   `handles` are the payloads whose release has not begun, `testing` the releases between decrement and
   test, `freeing` those that read zero.  History: how often the block was freed, and whether anything was
   done to it after the first time.
   */
  datatype Block = Block(
    counter: nat,
    handles: set<Handle>,
    testing: set<Handle>,
    freeing: set<Handle>,
    frees: nat,
    touched: bool
  )

  datatype Step =
    | Reference(h: Handle, from: Handle)
    | Decrement(h: Handle)
    | Test(h: Handle, stale: bool) // `stale`: freed memory happens to read as zero
    | Free(h: Handle)

  /** A payload is referenced while it is held, and each is released once. */
  predicate CanStep(s: Block, step: Step) {
    match step
    case Reference(h, from) =>
      from in s.handles && h !in s.handles + s.testing + s.freeing && |s.handles| + 1 < WORD
    case Decrement(h) => h in s.handles
    case Test(h, _) => h in s.testing
    case Free(h) => h in s.freeing
  }

  predicate ReadsZero(s: Block, step: Step)
    requires step.Test?
  {
    if s.frees == 0 then s.counter == 0 else step.stale
  }

  function Apply(s: Block, step: Step): Block
    requires CanStep(s, step)
  {
    var touched := s.touched || s.frees > 0;
    match step
    case Reference(h, _) => s.(counter := (s.counter + 1) % WORD, handles := s.handles + {h}, touched := touched)
    case Decrement(h) =>
      s.(counter := (s.counter + WORD - 1) % WORD, handles := s.handles - {h}, testing := s.testing + {h},
      touched := touched)
    case Test(h, _) =>
      s.(testing := s.testing - {h}, freeing := s.freeing + (if ReadsZero(s, step) then {h} else {}),
      touched := touched)
    case Free(h) => s.(freeing := s.freeing - {h}, frees := s.frees + 1, touched := touched)
  }

  predicate IsRun(s: Block, steps: seq<Step>)
    decreases |steps|
  {
    steps == [] || (CanStep(s, steps[0]) && IsRun(Apply(s, steps[0]), steps[1..]))
  }

  function After(s: Block, steps: seq<Step>): Block
    requires IsRun(s, steps)
    decreases |steps|
  {
    if steps == [] then s else After(Apply(s, steps[0]), steps[1..])
  }

  /** Somebody holds the block, and the counter says how many do. */
  predicate Held(s: Block) {
    && s.handles != {} && s.counter == |s.handles| < WORD
    && s.testing !! s.handles && s.freeing == {} && s.frees == 0 && !s.touched
  }

  /** All payloads are given back, and no release is under way. */
  predicate Finished(s: Block) {
    s.handles == {} && s.testing == {} && s.freeing == {}
  }

  predicate FreedOnce(s: Block) {
    s.frees == 1 && !s.touched
  }

  /** When the counter reaches zero, no other release stands between its decrement and its test. */
  predicate AloneAtZero(s: Block, steps: seq<Step>)
    requires IsRun(s, steps)
    decreases |steps|
  {
    steps == [] ||
    ((steps[0].Decrement? && s.counter == 1 ==> s.testing == {}) && AloneAtZero(Apply(s, steps[0]), steps[1..]))
  }

  // ----- After the counter has reached zero

  /** One release is left to free the block, or has done so. */
  predicate Solo(s: Block) {
    && s.handles == {} && s.counter == 0 && !s.touched && s.testing !! s.freeing
    && |s.testing| + |s.freeing| + s.frees == 1
  }

  /** Too many releases are left, or something has gone wrong already. */
  predicate Doomed(s: Block) {
    && s.handles == {} && s.counter == 0 && s.testing !! s.freeing && (s.touched ==> s.frees > 0)
    && (s.touched || |s.testing| + |s.freeing| + s.frees >= 2)
    && (s.frees > 0 || |s.testing| + |s.freeing| > 0)
  }

  lemma StepKeepsSolo(s: Block, step: Step)
    requires Solo(s) && CanStep(s, step)
    ensures Solo(Apply(s, step))
  {
    if step.Test? {
      assert |s.testing - {step.h}| == |s.testing| - 1;
      assert |s.freeing + {step.h}| == |s.freeing| + 1;
    }
  }

  lemma StepKeepsDoomed(s: Block, step: Step)
    requires Doomed(s) && CanStep(s, step)
    ensures Doomed(Apply(s, step))
  {
    if step.Test? {
      assert |s.testing - {step.h}| == |s.testing| - 1;
      assert |s.freeing + {step.h}| == |s.freeing| + 1;
    } else if step.Free? {
      assert |s.freeing - {step.h}| == |s.freeing| - 1;
    }
  }

  lemma StepKeepsHeld(s: Block, step: Step)
    requires Held(s) && CanStep(s, step) && !(step.Decrement? && s.counter == 1)
    ensures Held(Apply(s, step))
  {
    if step.Decrement? {
      assert |s.handles - {step.h}| == |s.handles| - 1;
    }
  }

  /** The decrement that reaches zero decides which of the two it will be. */
  lemma ZeroDecides(s: Block, step: Step)
    requires Held(s) && CanStep(s, step) && step.Decrement? && s.counter == 1
    ensures if s.testing == {} then Solo(Apply(s, step)) else Doomed(Apply(s, step))
  {
    assert |s.handles - {step.h}| == 0;
    assert |s.testing + {step.h}| == |s.testing| + 1;
  }

  lemma {:induction false} RunsDecide(s: Block, steps: seq<Step>)
    requires IsRun(s, steps) && (Held(s) || Solo(s) || Doomed(s))
    ensures var t := After(s, steps);
            if t.handles != {} then Held(t)
            else if Solo(s) || (Held(s) && AloneAtZero(s, steps)) then Solo(t) else Doomed(t)
    ensures Solo(s) ==> AloneAtZero(s, steps)
    decreases |steps|
  {
    Exclusive(s);
    if steps != [] {
      var step := steps[0];
      var next := Apply(s, step);
      assert Solo(s) ==> !step.Decrement?;
      if Solo(s) {
        StepKeepsSolo(s, step);
      } else if Doomed(s) {
        StepKeepsDoomed(s, step);
      } else if step.Decrement? && s.counter == 1 {
        ZeroDecides(s, step);
      } else {
        StepKeepsHeld(s, step);
      }
      Exclusive(next);
      hide Held, Solo, Doomed, Apply, CanStep;
      RunsDecide(next, steps[1..]);
    } else {
      assert Held(s) ==> s.handles != {};
    }
  }

  lemma Exclusive(s: Block)
    ensures !(Held(s) && Solo(s)) && !(Held(s) && Doomed(s)) && !(Solo(s) && Doomed(s))
  {
  }

  // ----- Freed exactly once

  /**
   Over every run that ends with all payloads given back: the block was freed once, and not touched
   afterwards, exactly if no other release stood between its two accesses when the counter reached zero.
   */
  lemma FreedOnceExactly(s: Block, steps: seq<Step>)
    requires Held(s) && IsRun(s, steps) && Finished(After(s, steps))
    ensures FreedOnce(After(s, steps)) <==> AloneAtZero(s, steps)
    ensures After(s, steps).frees >= 1
  {
    RunsDecide(s, steps);
  }

  /** Nor is it freed early or touched afterwards in a run that has not ended yet. */
  lemma AloneIsSafeThroughout(s: Block, steps: seq<Step>)
    requires Held(s) && IsRun(s, steps) && AloneAtZero(s, steps)
    ensures var t := After(s, steps);
            !t.touched && t.frees <= 1 && (t.frees == 1 ==> Finished(t)) && (t.handles != {} ==> t.frees == 0)
  {
    RunsDecide(s, steps);
  }

  /** Two payloads of one block, released by two threads: both read zero, and the block is freed twice. */
  lemma OverlappingReleasesFreeTwice(s: Block, g: Handle, h: Handle) returns (steps: seq<Step>)
    requires Held(s) && s.handles == {g, h} && g != h && s.testing == {}
    ensures IsRun(s, steps) && Finished(After(s, steps)) && After(s, steps).frees == 2
  {
    var s1 := Apply(s, Decrement(g));
    var s2 := Apply(s1, Decrement(h));
    assert |{g, h}| == 2;
    var s3 := Apply(s2, Test(g, false));
    var s4 := Apply(s3, Test(h, false));
    var s5 := Apply(s4, Free(g));
    var s6 := Apply(s5, Free(h));
    steps := OneStepBefore(s5, s6, Free(h), []);
    steps := OneStepBefore(s4, s6, Free(g), steps);
    steps := OneStepBefore(s3, s6, Test(h, false), steps);
    steps := OneStepBefore(s2, s6, Test(g, false), steps);
    steps := OneStepBefore(s1, s6, Decrement(h), steps);
    steps := OneStepBefore(s, s6, Decrement(g), steps);
  }

  lemma OneStepBefore(s: Block, end: Block, step: Step, rest: seq<Step>) returns (steps: seq<Step>)
    requires CanStep(s, step) && IsRun(Apply(s, step), rest) && After(Apply(s, step), rest) == end
    ensures steps == [step] + rest && IsRun(s, steps) && After(s, steps) == end
    ensures NoOverlap(Apply(s, step), rest) && (step.Decrement? ==> s.testing == {} && s.freeing == {}) ==>
              NoOverlap(s, steps)
  {
    steps := [step] + rest;
    assert steps[1..] == rest;
    hide Apply, CanStep;
  }

  // ----- What a caller can see to

  /** No release of the block begins while another is under way. */
  predicate NoOverlap(s: Block, steps: seq<Step>)
    requires IsRun(s, steps)
    decreases |steps|
  {
    steps == [] ||
    ((steps[0].Decrement? ==> s.testing == {} && s.freeing == {}) && NoOverlap(Apply(s, steps[0]), steps[1..]))
  }

  lemma {:induction false} NoOverlapMeansAlone(s: Block, steps: seq<Step>)
    requires IsRun(s, steps) && NoOverlap(s, steps)
    ensures AloneAtZero(s, steps)
    decreases |steps|
  {
    hide Apply, CanStep;
    if steps != [] {
      NoOverlapMeansAlone(Apply(s, steps[0]), steps[1..]);
    }
  }

  /** Releases of a block that do not overlap free it once, in whatever order and however it is shared meanwhile. */
  lemma ReleasesWithoutOverlapFreeOnce(s: Block, steps: seq<Step>)
    requires Held(s) && IsRun(s, steps) && NoOverlap(s, steps)
    ensures !After(s, steps).touched && After(s, steps).frees <= 1
    ensures Finished(After(s, steps)) ==> FreedOnce(After(s, steps))
  {
    NoOverlapMeansAlone(s, steps);
    RunsDecide(s, steps);
  }

  // ----- A release in one piece

  /** The block of the protocol is the one at address a of the pool. */
  predicate Mirrors(pool: Pool, a: Address, s: Block) {
    if s.frees == 0 then a in pool.memory && a in pool.refs && pool.refs[a] == s.counter
    else a !in pool.memory && a !in pool.refs
  }

  /** The accesses of one undisturbed release. */
  function WholeRelease(s: Block, h: Handle): seq<Step> {
    [Decrement(h), Test(h, false)] + if s.counter == 1 then [Free(h)] else []
  }

  /** One more undisturbed release. */
  predicate Released(s: Block, h: Handle, t: Block) {
    var steps := WholeRelease(s, h);
    IsRun(s, steps) && NoOverlap(s, steps) && After(s, steps) == t
  }

  lemma ReleaseInOnePiece(s: Block, h: Handle) returns (t: Block)
    requires Held(s) && s.testing == {} && h in s.handles
    ensures Released(s, h, t) && t.handles == s.handles - {h} && t.testing == {}
    ensures if s.handles == {h} then Finished(t) && FreedOnce(t) else Held(t)
  {
    var s1 := Apply(s, Decrement(h));
    var s2 := Apply(s1, Test(h, false));
    var last := s.counter == 1;
    CountOne(s.handles, h);
    t := if last then Apply(s2, Free(h)) else s2;
    var steps: seq<Step> := [];
    if last {
      steps := OneStepBefore(s2, t, Free(h), steps);
    }
    steps := OneStepBefore(s1, t, Test(h, false), steps);
    steps := OneStepBefore(s, t, Decrement(h), steps);
    assert steps == WholeRelease(s, h);
  }

  lemma CountOne(handles: set<Handle>, h: Handle)
    requires h in handles
    ensures |handles - {h}| == |handles| - 1 && (|handles| == 1 <==> handles == {h})
  {
    assert |handles| == |handles - {h}| + 1;
    if |handles| == 1 {
      assert handles - {h} == {};
    }
  }

  /** Undisturbed, the two accesses and the free do what release_payload is said to do in one step. */
  lemma WholeReleaseIsFastRelease(pool: Pool, payload: Payload, s: Block, h: Handle, t: Block)
    requires Held(s) && s.testing == {} && h in s.handles && Released(s, h, t)
    requires Mirrors(pool, payload.data, s) && pool.released < pool.reserved
    ensures FastRelease(pool, payload).Done?
    ensures var after := FastRelease(pool, payload).pool;
            Mirrors(after, payload.data, t) && after.released == pool.released + t.frees
  {
    var u := ReleaseInOnePiece(s, h);
    CountOne(s.handles, h);
    ReleasedCounter(s, h, t);
    hide WholeRelease, IsRun, After, NoOverlap, Apply;
  }

  lemma ReleasedCounter(s: Block, h: Handle, t: Block)
    requires Held(s) && s.testing == {} && h in s.handles && Released(s, h, t)
    ensures t.counter == s.counter - 1 && t.frees == if s.counter == 1 then 1 else 0
  {
    var steps := WholeRelease(s, h);
    var s1 := Apply(s, Decrement(h));
    assert steps[1..][0] == Test(h, false) && steps[1..][1..] == if s.counter == 1 then [Free(h)] else [];
    assert After(s, steps) == After(Apply(s1, Test(h, false)), steps[1..][1..]);
    if s.counter == 1 {
      assert [Free(h)][1..] == [];
    }
  }

  /** The block as it goes through undisturbed releases, one for each payload. */
  predicate ReleasedInTurn(blocks: seq<Block>, order: seq<Handle>) {
    && |blocks| == |order| + 1
    && (forall i :: 0 <= i < |order| ==> Released(blocks[i], order[i], blocks[i + 1]))
    && (forall i :: 0 <= i < |order| ==> blocks[i].counter == |order| - i && blocks[i].frees == 0)
    && Finished(blocks[|order|]) && FreedOnce(blocks[|order|])
  }

  lemma FirstOfTurn(s: Block, order: seq<Handle>) returns (t: Block)
    requires order != [] && Distinct(order) && s.handles == Elements(order)
    requires Held(s) && s.testing == {}
    ensures Released(s, order[0], t) && s.counter == |order| && s.frees == 0
    ensures if |order| == 1 then Finished(t) && FreedOnce(t)
            else Held(t) && t.testing == {} && t.handles == Elements(order[1..]) && Distinct(order[1..])
  {
    Unfold(order);
    DistinctCount(order);
    t := ReleaseInOnePiece(s, order[0]);
    if |order| == 1 {
      OneElement(order);
    } else {
      SomeLeft(s, order);
    }
    hide Released, Held, Elements, Distinct;
  }

  lemma {:induction false} ReleaseInTurn(s: Block, order: seq<Handle>) returns (blocks: seq<Block>)
    requires order != [] && Distinct(order) && s.handles == Elements(order)
    requires Held(s) && s.testing == {}
    ensures ReleasedInTurn(blocks, order) && blocks[0] == s
    decreases |order|
  {
    hide Released, Held, Elements, Distinct, Finished, FreedOnce;
    var t := FirstOfTurn(s, order);
    if |order| == 1 {
      blocks := [s, t];
    } else {
      var later := order[1..];
      var rest := ReleaseInTurn(t, later);
      blocks := [s] + rest;
      forall i | 0 <= i < |order|
        ensures Released(blocks[i], order[i], blocks[i + 1])
        ensures blocks[i].counter == |order| - i && blocks[i].frees == 0
      {
        if i > 0 {
          assert blocks[i] == rest[i - 1] && blocks[i + 1] == rest[i] && order[i] == later[i - 1];
          assert Released(rest[i - 1], later[i - 1], rest[i - 1 + 1]);
        }
      }
      assert blocks[|order|] == rest[|later|];
    }
  }

  lemma OneElement(order: seq<Handle>)
    requires |order| == 1
    ensures Elements(order) == {order[0]}
  {
  }

  lemma SomeLeft(s: Block, order: seq<Handle>)
    requires |order| > 1 && Distinct(order) && s.handles == Elements(order)
    ensures s.handles != {order[0]} && s.handles - {order[0]} == Elements(order[1..])
  {
    Unfold(order);
    assert order[1] in Elements(order);
  }

  /**
   The fan-out, access by access: as long as the N writers and the destructor release one after the other,
   in whatever order, the block goes through the states of the one-step pool, and the last one frees it.
   */
  lemma FanOutWithoutOverlap(w: World, block: Address, order: seq<Handle>, s: Block)
    returns (worlds: seq<World>, blocks: seq<Block>)
    requires Consistent(Fast, w) && order != [] && Distinct(order) && Elements(order) == Holders(w.live, block)
    requires Held(s) && s.testing == {} && s.handles == Elements(order)
    ensures ReleasesAll(Fast, worlds, order) && worlds[0] == w
    ensures ReleasedInTurn(blocks, order) && blocks[0] == s
    ensures forall i :: 0 <= i <= |order| ==> Mirrors(worlds[i].pool, block, blocks[i])
  {
    hide Steps, Consistent, Released, Held, Elements, Distinct;
    worlds := ReleaseInAnyOrder(Fast, w, block, order);
    blocks := ReleaseInTurn(s, order);
    assert Steps(Fast, worlds[|order| - 1], Drop(order[|order| - 1]), NULL, worlds[|order|]);
    NoHeaderWithoutBlock(worlds[|order| - 1], order[|order| - 1], worlds[|order|]);
  }

  lemma NoHeaderWithoutBlock(w: World, h: Handle, t: World)
    requires Steps(Fast, w, Drop(h), NULL, t)
    ensures t.pool.refs.Keys == t.pool.memory.Keys
  {
    OperationRefines(Fast, w, Drop(h), NULL);
  }
}
