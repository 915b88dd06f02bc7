/**
 A header-counting pool with any number of blocks, reserved, shared and released from any number of threads,
 and the two counters that tell it when more is released than was reserved.
 */
module FastPoolRuns {
  import opened PayloadPools
  import opened PoolRefinement
  import Blocks = FastPoolReleases

  /**
   `first` is history: the payload each block was reserved for.  `threw` says that a release found the counters
   inconsistent.
   */
  datatype State = State(first: seq<Handle>, blocks: seq<Blocks.Block>, reserved: nat, released: nat, threw: bool)

  datatype Step =
    | Reserve(h: Handle)
    | Access(i: nat, access: Blocks.Step) // one access of a thread to block i

  const EMPTY_POOL := State([], [], 0, 0, false)

  /** As get_payload leaves it: one reference, and nothing under way. */
  function Fresh(h: Handle): Blocks.Block {
    Blocks.Block(1, {h}, {}, {}, 0, false)
  }

  predicate CanStep(s: State, step: Step) {
    match step
    case Reserve(_) => true
    case Access(i, access) => i < |s.blocks| && Blocks.CanStep(s.blocks[i], access)
  }

  /** The release that is counted now makes add_release_payload_ throw. */
  predicate Throws(s: State) {
    CountRelease(Pool(map[], map[], s.reserved, s.released), EMPTY).Inconsistent?
  }

  /** Whoever frees a block counts the release. */
  function Apply(s: State, step: Step): State
    requires CanStep(s, step)
  {
    match step
    case Reserve(h) => s.(first := s.first + [h], blocks := s.blocks + [Fresh(h)], reserved := s.reserved + 1)
    case Access(i, access) =>
      var t := s.(blocks := s.blocks[i := Blocks.Apply(s.blocks[i], access)]);
      if access.Free? then t.(released := s.released + 1, threw := s.threw || Throws(s)) else t
  }

  ghost predicate IsRun(steps: seq<Step>)
    decreases |steps|, 0
  {
    steps != [] ==> IsRun(steps[..|steps| - 1]) && CanStep(After(steps[..|steps| - 1]), steps[|steps| - 1])
  }

  /** Where a run from the empty pool ends. */
  ghost function After(steps: seq<Step>): State
    requires IsRun(steps)
    decreases |steps|, 1
  {
    if steps == [] then EMPTY_POOL else Apply(After(steps[..|steps| - 1]), steps[|steps| - 1])
  }

  // ----- Each block on its own

  /** The accesses to block i. */
  function AccessesTo(steps: seq<Step>, i: nat): seq<Blocks.Step> {
    if steps == [] then []
    else
      var step := steps[|steps| - 1];
      AccessesTo(steps[..|steps| - 1], i) + if step.Access? && step.i == i then [step.access] else []
  }

  lemma {:induction false} OneMoreAccess(s: Blocks.Block, steps: seq<Blocks.Step>, access: Blocks.Step)
    requires Blocks.IsRun(s, steps) && Blocks.CanStep(Blocks.After(s, steps), access)
    ensures Blocks.IsRun(s, steps + [access])
    ensures Blocks.After(s, steps + [access]) == Blocks.Apply(Blocks.After(s, steps), access)
    decreases |steps|
  {
    hide Blocks.Apply, Blocks.CanStep;
    if steps == [] {
      assert [access][1..] == [];
    } else {
      assert (steps + [access])[1..] == steps[1..] + [access];
      OneMoreAccess(Blocks.Apply(s, steps[0]), steps[1..], access);
    }
  }

  lemma {:induction false} NoAccessYet(steps: seq<Step>, i: nat)
    requires IsRun(steps) && i >= |After(steps).blocks|
    ensures AccessesTo(steps, i) == []
    decreases |steps|
  {
    if steps != [] {
      NoAccessYet(steps[..|steps| - 1], i);
    }
  }

  /** Block i has gone through a run of its own. */
  ghost predicate RanOnItsOwn(steps: seq<Step>, s: State, i: nat) {
    && |s.first| == |s.blocks| && i < |s.blocks|
    && Blocks.IsRun(Fresh(s.first[i]), AccessesTo(steps, i))
    && Blocks.After(Fresh(s.first[i]), AccessesTo(steps, i)) == s.blocks[i]
  }

  lemma {:induction false} BlocksRunOnTheirOwn(steps: seq<Step>, i: nat)
    requires IsRun(steps)
    ensures |After(steps).first| == |After(steps).blocks|
    ensures i < |After(steps).blocks| ==> RanOnItsOwn(steps, After(steps), i)
    decreases |steps|
  {
    if steps != [] {
      var earlier, step := steps[..|steps| - 1], steps[|steps| - 1];
      var s := After(earlier);
      BlocksRunOnTheirOwn(earlier, i);
      if step.Reserve? && i == |s.blocks| {
        NoAccessYet(earlier, i);
        assert AccessesTo(steps, i) == [];
      } else if step.Access? && step.i == i {
        OneMoreAccess(Fresh(s.first[i]), AccessesTo(earlier, i), step.access);
        assert AccessesTo(steps, i) == AccessesTo(earlier, i) + [step.access];
      } else {
        assert AccessesTo(steps, i) == AccessesTo(earlier, i);
      }
    }
  }

  predicate AllFinished(s: State) {
    forall i :: 0 <= i < |s.blocks| ==> Blocks.Finished(s.blocks[i])
  }

  predicate SomeFreedTwice(blocks: seq<Blocks.Block>) {
    exists i :: 0 <= i < |blocks| && blocks[i].frees >= 2
  }

  /** A block that has been given back has been freed. */
  lemma FinishedMeansFreed(steps: seq<Step>, i: nat)
    requires IsRun(steps) && i < |After(steps).blocks| && Blocks.Finished(After(steps).blocks[i])
    ensures After(steps).blocks[i].frees >= 1
  {
    BlocksRunOnTheirOwn(steps, i);
    var h := After(steps).first[i];
    assert Blocks.Held(Fresh(h));
    Blocks.FreedOnceExactly(Fresh(h), AccessesTo(steps, i));
  }

  // ----- The counters

  /** How often blocks were freed. */
  function Frees(blocks: seq<Blocks.Block>): nat {
    if blocks == [] then 0 else Frees(blocks[..|blocks| - 1]) + blocks[|blocks| - 1].frees
  }

  lemma {:induction false} FreesAfterUpdate(blocks: seq<Blocks.Block>, i: nat, b: Blocks.Block)
    requires i < |blocks|
    ensures Frees(blocks[i := b]) + blocks[i].frees == Frees(blocks) + b.frees
    decreases |blocks|
  {
    var n := |blocks| - 1;
    if i < n {
      FreesAfterUpdate(blocks[..n], i, b);
      assert blocks[i := b][..n] == blocks[..n][i := b];
    } else {
      assert blocks[i := b][..n] == blocks[..n];
    }
  }

  /** More frees than blocks: some block was freed twice. */
  lemma {:induction false} ManyFrees(blocks: seq<Blocks.Block>)
    requires Frees(blocks) > |blocks|
    ensures SomeFreedTwice(blocks)
    decreases |blocks|
  {
    var earlier, last := blocks[..|blocks| - 1], blocks[|blocks| - 1];
    if last.frees < 2 {
      ManyFrees(earlier);
      var i :| 0 <= i < |earlier| && earlier[i].frees >= 2;
      assert blocks[i].frees >= 2;
    }
  }

  /** Every block freed, and one of them twice: more frees than blocks. */
  lemma {:induction false} FreedOnceAndTwice(blocks: seq<Blocks.Block>)
    requires forall i :: 0 <= i < |blocks| ==> blocks[i].frees >= 1
    ensures Frees(blocks) >= |blocks|
    ensures SomeFreedTwice(blocks) ==> Frees(blocks) > |blocks|
    decreases |blocks|
  {
    if blocks != [] {
      var earlier := blocks[..|blocks| - 1];
      FreedOnceAndTwice(earlier);
      if i :| 0 <= i < |blocks| && blocks[i].frees >= 2 {
        assert i == |blocks| - 1 || earlier[i].frees >= 2;
      }
    }
  }

  /** The counters count, a release beyond them throws, and only a block freed twice gets beyond them. */
  ghost predicate CountsInv(s: State) {
    && s.reserved == |s.blocks| && s.released == Frees(s.blocks)
    && (s.released > s.reserved ==> s.threw)
    && (s.threw ==> SomeFreedTwice(s.blocks))
  }

  lemma StepKeepsCounts(s: State, step: Step)
    requires CountsInv(s) && CanStep(s, step)
    ensures CountsInv(Apply(s, step))
  {
    var t := Apply(s, step);
    if step.Reserve? {
      assert t.blocks[..|s.blocks|] == s.blocks;
      FreedTwiceStays(s.blocks, t.blocks);
    } else {
      FreesAfterUpdate(s.blocks, step.i, t.blocks[step.i]);
      FreedTwiceStays(s.blocks, t.blocks);
      if t.released > t.reserved {
        ManyFrees(t.blocks);
      }
    }
  }

  lemma FreedTwiceStays(blocks: seq<Blocks.Block>, later: seq<Blocks.Block>)
    requires |blocks| <= |later| && forall i :: 0 <= i < |blocks| ==> blocks[i].frees <= later[i].frees
    ensures SomeFreedTwice(blocks) ==> SomeFreedTwice(later)
  {
    if i :| 0 <= i < |blocks| && blocks[i].frees >= 2 {
      assert later[i].frees >= 2;
    }
  }

  lemma {:induction false} RunKeepsCounts(steps: seq<Step>)
    requires IsRun(steps)
    ensures CountsInv(After(steps))
    decreases |steps|
  {
    if steps != [] {
      var earlier := steps[..|steps| - 1];
      RunKeepsCounts(earlier);
      StepKeepsCounts(After(earlier), steps[|steps| - 1]);
    }
  }

  /**
   Over every run of the pool: a release throws only once some block has been freed twice; and when all blocks
   have been given back, one has thrown exactly if some block was freed twice.
   */
  lemma OverReleaseExactly(steps: seq<Step>)
    requires IsRun(steps)
    ensures var s := After(steps);
            && (s.threw ==> SomeFreedTwice(s.blocks))
            && (AllFinished(s) ==> (s.threw <==> SomeFreedTwice(s.blocks)))
  {
    RunKeepsCounts(steps);
    var s := After(steps);
    if AllFinished(s) {
      forall i | 0 <= i < |s.blocks| ensures s.blocks[i].frees >= 1 {
        FinishedMeansFreed(steps, i);
      }
      FreedOnceAndTwice(s.blocks);
    }
  }

  // ----- Users that keep out of each other's way

  /** When the counter of block i reaches zero, no other release of it stands between its two accesses. */
  ghost predicate Orderly(steps: seq<Step>, s: State, i: nat) {
    RanOnItsOwn(steps, s, i) && Blocks.AloneAtZero(Fresh(s.first[i]), AccessesTo(steps, i))
  }

  /** Then no release ever throws, no block is touched once freed, and the pool is clean when all is given back. */
  lemma OrderlyPoolsAreClean(steps: seq<Step>)
    requires IsRun(steps) && forall i :: 0 <= i < |After(steps).blocks| ==> Orderly(steps, After(steps), i)
    ensures var s := After(steps);
            && !s.threw && (forall i :: 0 <= i < |s.blocks| ==> !s.blocks[i].touched)
            && (AllFinished(s) ==> s.reserved == s.released)
  {
    RunKeepsCounts(steps);
    var s := After(steps);
    forall i | 0 <= i < |s.blocks| ensures s.blocks[i].frees <= 1 && !s.blocks[i].touched {
      assert Orderly(steps, s, i) && Blocks.Held(Fresh(s.first[i]));
      Blocks.AloneIsSafeThroughout(Fresh(s.first[i]), AccessesTo(steps, i));
    }
    if AllFinished(s) {
      forall i | 0 <= i < |s.blocks| ensures s.blocks[i].frees >= 1 {
        FinishedMeansFreed(steps, i);
      }
      FreedOnceAndTwice(s.blocks);
    }
    if s.released > s.reserved {
      ManyFrees(s.blocks);
    }
  }

  // ----- A pool that throws

  lemma More(steps: seq<Step>, step: Step) returns (longer: seq<Step>)
    requires IsRun(steps) && CanStep(After(steps), step)
    ensures IsRun(longer) && After(longer) == Apply(After(steps), step)
  {
    longer := steps + [step];
    assert longer[..|steps|] == steps;
  }

  /** The accesses of a run of the only block, made in the pool. */
  lemma {:induction false} InThePool(before: seq<Step>, accesses: seq<Blocks.Step>) returns (steps: seq<Step>)
    requires IsRun(before) && |After(before).blocks| == 1 && Blocks.IsRun(After(before).blocks[0], accesses)
    ensures IsRun(steps) && After(steps).blocks == [Blocks.After(After(before).blocks[0], accesses)]
    decreases |accesses|
  {
    steps := before;
    if accesses != [] {
      steps := More(before, Access(0, accesses[0]));
      hide IsRun, After, Blocks.Apply, Blocks.CanStep;
      steps := InThePool(steps, accesses[1..]);
    }
  }

  /** Two payloads of one block, released by two threads at a time: the second free throws. */
  lemma OverlappingReleasesThrow(g: Handle, h: Handle) returns (steps: seq<Step>)
    requires g != h
    ensures IsRun(steps) && After(steps).threw
  {
    steps := More([], Reserve(g));
    steps := More(steps, Access(0, Blocks.Reference(h, g)));
    var b := After(steps).blocks[0];
    assert b == Blocks.Block(2, {g} + {h}, {}, {}, 0, false) && |{g, h}| == 2 && {g} + {h} == {g, h};
    var accesses := Blocks.OverlappingReleasesFreeTwice(b, g, h);
    steps := InThePool(steps, accesses);
    assert SomeFreedTwice(After(steps).blocks) by {
      assert After(steps).blocks[0].frees >= 2;
    }
    assert AllFinished(After(steps));
    OverReleaseExactly(steps);
  }
}
