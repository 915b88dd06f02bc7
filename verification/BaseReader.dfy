/** The reception filters of a reader: at most so many samples a second, and one out of every so many. */
module BaseReaders {
  import opened DdsPipeTypes

  const NANOSECONDS_PER_SECOND := 1_000_000_000.0

  /** The time between samples that a rate asks for, truncated to whole nanoseconds. */
  function Period(maxRxRate: real): (period: nat)
    requires maxRxRate >= 0.0
    ensures maxRxRate > 0.0 ==> period as real * maxRxRate <= NANOSECONDS_PER_SECOND < (period + 1) as real * maxRxRate
  {
    if maxRxRate > 0.0 then
      var period := NANOSECONDS_PER_SECOND / maxRxRate;
      assert period * maxRxRate == NANOSECONDS_PER_SECOND && period >= 0.0;
      period.Floor
    else 0
  }

  /**
   The period as it is stored, after a cast to `unsigned int`.  The language does not define what a value out
   of range becomes; `undefined` is whatever it does become.
   */
  function StoredPeriod(maxRxRate: real, undefined: nat): (period: nat)
    requires maxRxRate >= 0.0 && undefined < WORD
    ensures period < WORD
  {
    if Period(maxRxRate) < WORD then Period(maxRxRate) else undefined
  }

  /** The rate is above one sample in 2^32 nanoseconds. */
  predicate RateFits(maxRxRate: real) {
    WORD as real * maxRxRate > NANOSECONDS_PER_SECOND
  }

  /** The stored period is the one asked for exactly if the rate fits, whatever the cast does otherwise. */
  lemma PeriodFitsExactly(maxRxRate: real, undefined: nat)
    requires maxRxRate > 0.0 && undefined < WORD
    ensures StoredPeriod(maxRxRate, undefined) == Period(maxRxRate) <==> RateFits(maxRxRate)
    ensures !RateFits(maxRxRate) ==> StoredPeriod(maxRxRate, undefined) < Period(maxRxRate)
  {
    var period := Period(maxRxRate);
    if period < WORD {
      FitsFrom(period + 1, maxRxRate);
    } else {
      Scale(WORD, period, maxRxRate);
    }
  }

  lemma FitsFrom(periods: nat, rate: real)
    requires rate > 0.0 && periods <= WORD && periods as real * rate > NANOSECONDS_PER_SECOND
    ensures RateFits(rate)
  {
    var word := WORD as real;
    assert word * rate > NANOSECONDS_PER_SECOND by {
      assert word * rate == periods as real * rate + (word - periods as real) * rate;
      assert (word - periods as real) * rate >= 0.0;
    }
    assert word * rate == 4294967296.0 * rate;
  }

  lemma Scale(a: nat, b: nat, rate: real)
    requires a <= b && rate > 0.0
    ensures a as real * rate <= b as real * rate
  {
  }

  datatype Filter = Filter(limited: bool, period: nat, downsampling: nat)

  /** `index` counts the samples that passed the rate filter, modulo the downsampling. */
  datatype Progress = Progress(index: nat, lastReceived: nat)

  predicate PassesRate(f: Filter, s: Progress, now: nat) {
    f.limited ==> now >= s.lastReceived + f.period
  }

  predicate Accepts(f: Filter, s: Progress, now: nat) {
    PassesRate(f, s, now) && s.index == 0
  }

  function Next(f: Filter, s: Progress, now: nat): Progress
    requires f.downsampling > 0
  {
    if !PassesRate(f, s, now) then s
    else Progress((s.index + 1) % f.downsampling, if s.index == 0 then now else s.lastReceived)
  }

  // ----- Any sequence of timestamps

  function After(f: Filter, s: Progress, times: seq<nat>): Progress
    requires f.downsampling > 0
  {
    if times == [] then s else Next(f, After(f, s, times[..|times| - 1]), times[|times| - 1])
  }

  /** The timestamps of the accepted samples. */
  function Accepted(f: Filter, s: Progress, times: seq<nat>): seq<nat>
    requires f.downsampling > 0
  {
    if times == [] then []
    else
      var earlier, now := times[..|times| - 1], times[|times| - 1];
      Accepted(f, s, earlier) + if Accepts(f, After(f, s, earlier), now) then [now] else []
  }

  /** How many samples the rate filter has let pass. */
  function Passed(f: Filter, s: Progress, times: seq<nat>): nat
    requires f.downsampling > 0
  {
    if times == [] then 0
    else
      var earlier, now := times[..|times| - 1], times[|times| - 1];
      Passed(f, s, earlier) + if PassesRate(f, After(f, s, earlier), now) then 1 else 0
  }

  lemma {:induction false} LastReceivedIsLastAccepted(f: Filter, s: Progress, times: seq<nat>)
    requires f.downsampling > 0
    ensures var accepted := Accepted(f, s, times);
            After(f, s, times).lastReceived == if accepted == [] then s.lastReceived else accepted[|accepted| - 1]
    decreases |times|
  {
    if times != [] {
      LastReceivedIsLastAccepted(f, s, times[..|times| - 1]);
    }
  }

  lemma {:induction false} NeighboursAreSpaced(f: Filter, s: Progress, times: seq<nat>, i: nat)
    requires f.downsampling > 0 && f.limited && i + 1 < |Accepted(f, s, times)|
    ensures Accepted(f, s, times)[i + 1] >= Accepted(f, s, times)[i] + f.period
    decreases |times|
  {
    var earlier := times[..|times| - 1];
    var before := Accepted(f, s, earlier);
    if i + 1 < |before| {
      NeighboursAreSpaced(f, s, earlier, i);
    } else {
      LastReceivedIsLastAccepted(f, s, earlier);
    }
  }

  /** Whatever the clock does, k + 1 accepted samples in a row take at least k periods. */
  lemma {:induction false} AcceptedSamplesAreSpaced(f: Filter, s: Progress, times: seq<nat>, i: nat, k: nat)
    requires f.downsampling > 0 && f.limited && i + k < |Accepted(f, s, times)|
    ensures Accepted(f, s, times)[i + k] >= Accepted(f, s, times)[i] + k * f.period
    decreases k
  {
    if k > 0 {
      AcceptedSamplesAreSpaced(f, s, times, i, k - 1);
      NeighboursAreSpaced(f, s, times, i + k - 1);
      assert k * f.period == (k - 1) * f.period + f.period;
    }
  }

  /** The filter of a reader with this rate and downsampling. */
  function FilterOf(maxRxRate: real, downsampling: nat, undefined: nat): Filter
    requires maxRxRate >= 0.0 && undefined < WORD
  {
    Filter(maxRxRate > 0.0, StoredPeriod(maxRxRate, undefined), downsampling)
  }

  /** Accepted samples never come faster than the rate allows. */
  ghost predicate KeepsRate(f: Filter, s: Progress, maxRxRate: real)
    requires f.downsampling > 0 && maxRxRate >= 0.0
  {
    forall times, i :: 0 <= i && i + 1 < |Accepted(f, s, times)| ==>
                         Accepted(f, s, times)[i + 1] >= Accepted(f, s, times)[i] + Period(maxRxRate)
  }

  lemma AcceptedOneMore(f: Filter, s: Progress, times: seq<nat>, now: nat)
    requires f.downsampling > 0
    ensures After(f, s, times + [now]) == Next(f, After(f, s, times), now)
    ensures Accepted(f, s, times + [now])
         == Accepted(f, s, times) + if Accepts(f, After(f, s, times), now) then [now] else []
  {
    assert (times + [now])[..|times|] == times;
  }

  /** Counting to d, where it starts again. */
  function Turn(n: nat, d: nat): nat {
    if n == d then 0 else n
  }

  lemma NextTurn(n: nat, d: nat)
    requires n < d
    ensures (n + 1) % d == Turn(n + 1, d)
  {
  }

  /** Samples the rate filter lets pass are dropped until it is the next one's turn. */
  lemma {:induction false} UntilTheNextTurn(f: Filter, s: Progress, times: seq<nat>, now: nat, k: nat)
    returns (longer: seq<nat>)
    requires 0 < f.downsampling && k < f.downsampling && After(f, s, times).index == Turn(1, f.downsampling)
    requires PassesRate(f, After(f, s, times), now)
    ensures Accepted(f, s, longer) == Accepted(f, s, times)
    ensures After(f, s, longer) == Progress(Turn(k + 1, f.downsampling), After(f, s, times).lastReceived)
    decreases k
  {
    longer := times;
    if k > 0 {
      var earlier := UntilTheNextTurn(f, s, times, now, k - 1);
      AcceptedOneMore(f, s, earlier, now);
      NextTurn(k, f.downsampling);
      longer := earlier + [now];
    }
  }

  /**
   The rate is kept exactly if it fits: a slower one is stored as a shorter period, and two samples that far
   apart are both accepted.
   */
  lemma RateIsKeptExactly(maxRxRate: real, downsampling: nat, undefined: nat, s: Progress)
    requires maxRxRate > 0.0 && downsampling > 0 && undefined < WORD && s == Progress(0, 0)
    ensures KeepsRate(FilterOf(maxRxRate, downsampling, undefined), s, maxRxRate) <==> RateFits(maxRxRate)
  {
    var f := FilterOf(maxRxRate, downsampling, undefined);
    PeriodFitsExactly(maxRxRate, undefined);
    if RateFits(maxRxRate) {
      forall times, i | 0 <= i && i + 1 < |Accepted(f, s, times)|
        ensures Accepted(f, s, times)[i + 1] >= Accepted(f, s, times)[i] + Period(maxRxRate)
      {
        NeighboursAreSpaced(f, s, times, i);
      }
    } else {
      var times := TooFast(f, s);
      assert Accepted(f, s, times)[0 + 1] < Accepted(f, s, times)[0] + Period(maxRxRate);
    }
  }

  /** Two accepted samples exactly one stored period apart. */
  lemma TooFast(f: Filter, s: Progress) returns (times: seq<nat>)
    requires f.downsampling > 0 && f.limited && s == Progress(0, 0)
    ensures Accepted(f, s, times) == [f.period, 2 * f.period]
  {
    AcceptedOneMore(f, s, [], f.period);
    NextTurn(0, f.downsampling);
    var earlier := UntilTheNextTurn(f, s, [] + [f.period], 2 * f.period, f.downsampling - 1);
    AcceptedOneMore(f, s, earlier, 2 * f.period);
    times := earlier + [2 * f.period];
  }

  lemma {:induction false} IndexCountsPassed(f: Filter, s: Progress, times: seq<nat>)
    requires f.downsampling > 0 && s.index < f.downsampling
    ensures After(f, s, times).index == (s.index + Passed(f, s, times)) % f.downsampling
    decreases |times|
  {
    if times != [] {
      var earlier, now := times[..|times| - 1], times[|times| - 1];
      IndexCountsPassed(f, s, earlier);
      var n := s.index + Passed(f, s, earlier);
      if PassesRate(f, After(f, s, earlier), now) {
        NextModulo(n, f.downsampling);
      }
    }
  }

  lemma NextModulo(n: nat, d: nat)
    requires d > 0
    ensures (n % d + 1) % d == (n + 1) % d
  {
    var q, r := n / d, n % d;
    Division(n, d);
    NextTurn(r, d);
    if r + 1 < d {
      Remainder(n + 1, d, q, r + 1);
    } else {
      OneMoreTime(q, d);
      Remainder(n + 1, d, q + 1, 0);
    }
  }

  lemma Division(n: nat, d: nat)
    requires d > 0
    ensures n == n / d * d + n % d && n % d < d
  {
  }

  lemma OneMoreTime(q: nat, d: nat)
    ensures (q + 1) * d == q * d + d
  {
  }

  lemma Remainder(n: nat, d: nat, q: nat, r: nat)
    requires d > 0 && r < d && n == q * d + r
    ensures n % d == r
  {
    var e := n / d - q;
    assert n == d * (n / d) + n % d;
    assert e * d == d * (n / d) - q * d;
    assert n % d == r - e * d;
    MultiplesAreFar(e, d);
  }

  lemma MultiplesAreFar(e: int, d: nat)
    requires d > 0
    ensures e == 0 || e * d >= d || e * d <= -(d as int)
  {
    if e >= 1 {
      assert e * d == (e - 1) * d + d && (e - 1) * d >= 0;
    } else if e <= -1 {
      assert e * d == (e + 1) * d - d && (e + 1) * d <= 0;
    }
  }

  /**
   The decision on every sample, from a fresh reader: it is accepted exactly if it passes the rate filter
   and is number 0, d, 2d, ... of those that do.
   */
  lemma EveryDthPassingIsAccepted(f: Filter, s: Progress, times: seq<nat>, k: nat)
    requires f.downsampling > 0 && s.index == 0 && k < |times|
    ensures var before := After(f, s, times[..k]);
            Accepts(f, before, times[k])
            <==> PassesRate(f, before, times[k]) && Passed(f, s, times[..k]) % f.downsampling == 0
  {
    IndexCountsPassed(f, s, times[..k]);
  }

  // ----- The decision, from the timestamps and the accepted ones alone

  function LastAccepted(f: Filter, s: Progress, times: seq<nat>): nat
    requires f.downsampling > 0
  {
    var accepted := Accepted(f, s, times);
    if accepted == [] then s.lastReceived else accepted[|accepted| - 1]
  }

  /** Sample k comes at least a stored period after the last one accepted before it, if there is a limit at all. */
  predicate IsLate(f: Filter, s: Progress, times: seq<nat>, k: nat)
    requires f.downsampling > 0 && k < |times|
  {
    f.limited ==> times[k] >= LastAccepted(f, s, times[..k]) + f.period
  }

  /** How many of the samples are late enough. */
  function LateOnes(f: Filter, s: Progress, times: seq<nat>): nat
    requires f.downsampling > 0
  {
    if times == [] then 0
    else
      var n := |times| - 1;
      LateOnes(f, s, times[..n]) + if IsLate(f, s, times, n) then 1 else 0
  }

  lemma LateMeansPassing(f: Filter, s: Progress, times: seq<nat>, k: nat)
    requires f.downsampling > 0 && k < |times|
    ensures IsLate(f, s, times, k) <==> PassesRate(f, After(f, s, times[..k]), times[k])
  {
    LastReceivedIsLastAccepted(f, s, times[..k]);
  }

  lemma {:induction false} LateOnesPassed(f: Filter, s: Progress, times: seq<nat>)
    requires f.downsampling > 0
    ensures LateOnes(f, s, times) == Passed(f, s, times)
    decreases |times|
  {
    if times != [] {
      LateOnesPassed(f, s, times[..|times| - 1]);
      LateMeansPassing(f, s, times, |times| - 1);
    }
  }

  /** The next sample is accepted exactly if it is late enough and number 0, d, 2d, ... of those that are. */
  predicate IsDue(f: Filter, s: Progress, times: seq<nat>, now: nat)
    requires f.downsampling > 0
  {
    IsLate(f, s, times + [now], |times|) && LateOnes(f, s, times) % f.downsampling == 0
  }

  lemma NextIsAcceptedExactly(f: Filter, s: Progress, times: seq<nat>, now: nat)
    requires f.downsampling > 0 && s.index == 0
    ensures Accepted(f, s, times + [now]) == Accepted(f, s, times) + if IsDue(f, s, times, now) then [now] else []
    ensures IsDue(f, s, times, now) <==> Accepts(f, After(f, s, times), now)
  {
    assert (times + [now])[..|times|] == times && (times + [now])[|times|] == now;
    AcceptedOneMore(f, s, times, now);
    LateMeansPassing(f, s, times + [now], |times|);
    LateOnesPassed(f, s, times);
    IndexCountsPassed(f, s, times);
  }

  /** Without a limit the clock does not matter: exactly every d-th sample is accepted. */
  lemma {:induction false} UnlimitedAcceptsEveryDth(downsampling: nat, undefined: nat, times: seq<nat>, now: nat)
    requires downsampling > 0 && undefined < WORD
    ensures var f := FilterOf(0.0, downsampling, undefined);
            && LateOnes(f, Progress(0, 0), times) == |times|
            && (IsDue(f, Progress(0, 0), times, now) <==> |times| % downsampling == 0)
    decreases |times|
  {
    if times != [] {
      UnlimitedAcceptsEveryDth(downsampling, undefined, times[..|times| - 1], now);
    }
  }

  class BaseReader {
    const maxRxRate: real
    const downsampling: nat
    const minIntersamplePeriod: nat
    ghost const undefined: nat // what a cast out of range yields
    var enabled: bool
    var downsamplingIdx: nat
    var lastReceivedTs: nat
    ghost var received: seq<nat> // the timestamps so far

    ghost predicate Valid()
      reads this
    {
      && 0 < downsampling < WORD && downsamplingIdx < downsampling && maxRxRate >= 0.0 && undefined < WORD
      && minIntersamplePeriod == StoredPeriod(maxRxRate, undefined)
      && View() == After(FilterOf(maxRxRate, downsampling, undefined), Progress(0, 0), received)
    }

    function View(): Progress
      reads this
    {
      Progress(downsamplingIdx, lastReceivedTs)
    }

    ghost function Settings(): Filter
      reads this
      requires Valid()
    {
      FilterOf(maxRxRate, downsampling, undefined)
    }

    constructor (maxRxRate: real, downsampling: nat, undefined: nat)
      requires maxRxRate >= 0.0 && 0 < downsampling < WORD && undefined < WORD
      ensures Valid() && !enabled && View() == Progress(0, 0) && received == []
      ensures this.maxRxRate == maxRxRate && this.downsampling == downsampling && this.undefined == undefined
    {
      this.maxRxRate, this.downsampling, this.undefined := maxRxRate, downsampling, undefined;
      if maxRxRate > 0.0 {
        var period := (NANOSECONDS_PER_SECOND / maxRxRate).Floor;
        minIntersamplePeriod := if period < WORD then period else undefined;
      } else {
        minIntersamplePeriod := 0;
      }
      enabled, downsamplingIdx, lastReceivedTs, received := false, 0, 0, [];
    }

    /**
     `now` is what the clock says at the reception.  The sample is accepted exactly if it comes at least a period
     after the last one that was, and is number 0, d, 2d, ... of those that do.
     */
    method ShouldAcceptSample(now: nat) returns (accepted: bool)
      requires Valid()
      modifies this`downsamplingIdx, this`lastReceivedTs, this`received
      ensures Valid() && received == old(received) + [now]
      ensures accepted <==> IsDue(Settings(), Progress(0, 0), old(received), now)
      ensures View() == Next(Settings(), old(View()), now)
    {
      NextIsAcceptedExactly(Settings(), Progress(0, 0), received, now);
      AcceptedOneMore(Settings(), Progress(0, 0), received, now);
      hide After, Accepted, Passed, IsDue;
      received := received + [now];
      if maxRxRate > 0.0 {
        var threshold := lastReceivedTs + minIntersamplePeriod;
        if now < threshold {
          return false;
        }
      }
      var prevDownsamplingIdx := downsamplingIdx;
      downsamplingIdx := (downsamplingIdx + 1) % downsampling;
      if prevDownsamplingIdx != 0 {
        return false;
      }
      lastReceivedTs := now;
      return true;
    }
  }
}
