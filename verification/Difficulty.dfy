/**
 The rolling difficulty retarget of node.py. The floating point steps are exact rationals here,
 rounded half to even where the source calls `round`.
 */
module Difficulty {
  import opened Prelude
  import opened Types
  import opened Work
  import Consensus

  const ADJUST_WINDOW := 12
  const SAMPLE_MIN_SECONDS := 37
  const SAMPLE_MAX_SECONDS := 600
  const INITIAL_DIFFICULTY_UNITS := 1_000_000_000
  const MAX_ADJUST_DOWN := 0.67

  datatype Sample = Sample(elapsed: int, hashes: real)

  function Round(x: real): int {
    var f := x.Floor;
    var d := x - f as real;
    if d < 0.5 then f
    else if d > 0.5 then f + 1
    else if f % 2 == 0 then f else f + 1
  }

  function MinReal(a: real, b: real): real { if b < a then b else a }
  function MaxReal(a: real, b: real): real { if b > a then b else a }

  function ClampUnits(units: int): int {
    Max(MIN_DIFFICULTY_UNITS, Min(MAX_DIFFICULTY_UNITS, units))
  }

  function RoundAndClamp(x: real): int {
    ClampUnits(Round(x))
  }

  function ClampSeconds(elapsed: int): int {
    Min(SAMPLE_MAX_SECONDS, Max(SAMPLE_MIN_SECONDS, if elapsed <= 0 then SAMPLE_MIN_SECONDS else elapsed))
  }

  function UnitsFromLegacy(leadingZeroes: int): int {
    Max(1, Round(Power16(Max(0, leadingZeroes)) as real * 1000000.0 / 4096.0))
  }

  function ExpectedHashes(header: Header): real {
    if header.version <= 1 then Power16(Max(0, header.difficulty)) as real
    else 4096.0 * (Max(1, header.difficulty) as real / 1000000.0)
  }

  function LastUnits(chain: seq<Block>): int
    requires chain != []
  {
    var tip := chain[|chain| - 1].header;
    if tip.height <= 0 then INITIAL_DIFFICULTY_UNITS
    else if tip.version >= 2 then Max(1, tip.difficulty)
    else UnitsFromLegacy(tip.difficulty)
  }

  /** Indices of the version-2 blocks below `n`, genesis excluded. */
  function SmoothIndices(chain: seq<Block>, n: nat): (r: seq<nat>)
    requires n <= |chain|
    ensures forall i :: 0 <= i < |r| ==> 1 <= r[i] < n
  {
    if n <= 1 then []
    else SmoothIndices(chain, n - 1) + (if chain[n - 1].header.version >= 2 then [n - 1] else [])
  }

  function SampleIndices(chain: seq<Block>): (r: seq<nat>)
    requires chain != []
    ensures forall i :: 0 <= i < |r| ==> 1 <= r[i] < |chain|
  {
    var smooth := SmoothIndices(chain, |chain|);
    if smooth != [] then smooth[Max(0, |smooth| - ADJUST_WINDOW)..]
    else
      var start := Max(1, |chain| - ADJUST_WINDOW);
      seq(Max(0, |chain| - start), i requires 0 <= i => start + i)
  }

  function SamplesAt(chain: seq<Block>, indices: seq<nat>): seq<Sample>
    requires forall i :: 0 <= i < |indices| ==> 1 <= indices[i] < |chain|
  {
    if indices == [] then []
    else
      var n := |indices| - 1;
      var before, here := chain[indices[n] - 1].header.timestamp, chain[indices[n]].header;
      SamplesAt(chain, indices[..n])
      + (if before <= 0 || here.timestamp <= 0 then []
         else [Sample(ClampSeconds(here.timestamp - before), ExpectedHashes(here))])
  }

  /** How many gaps the rule reads once a chain has that many. */
  function SampleCount(chain: seq<Block>): (n: nat)
    requires chain != []
    ensures n < |chain|
  {
    Min(ADJUST_WINDOW, |chain| - 1)
  }

  function RecentSamples(chain: seq<Block>): seq<Sample>
    requires chain != []
  {
    SamplesAt(chain, SampleIndices(chain))
  }

  function SumSeconds(samples: seq<Sample>): int {
    if samples == [] then 0 else SumSeconds(samples[..|samples| - 1]) + samples[|samples| - 1].elapsed
  }

  function SumHashes(samples: seq<Sample>): real {
    if samples == [] then 0.0 else SumHashes(samples[..|samples| - 1]) + samples[|samples| - 1].hashes
  }

  function DesiredUnits(seconds: int, hashes: real): int {
    RoundAndClamp(WantedUnits(seconds, hashes))
  }

  function WantedUnits(seconds: int, hashes: real): real {
    hashes / MaxReal(1.0, seconds as real) * 150.0 * 1000000.0 / 4096.0
  }

  function MaxUp(average: real): real {
    if average < 15.0 then 1.75
    else if average < 60.0 then 1.50
    else if average < 120.0 then 1.25
    else 1.10
  }

  function Retarget(current: int, count: nat, seconds: int, hashes: real): int
    requires count > 0
  {
    Adjusted(current, CappedRatio(current, seconds as real / count as real, DesiredUnits(seconds, hashes)))
  }

  function CappedRatio(current: int, average: real, desired: int): real {
    MaxReal(MAX_ADJUST_DOWN, MinReal(MaxUp(average), desired as real / Max(1, current) as real))
  }

  function Adjusted(current: int, ratio: real): int {
    RoundAndClamp(Scaled(current, ratio))
  }

  function Scaled(units: int, ratio: real): real {
    units as real * ratio
  }

  /** `_difficulty_plan_for(chain)['next_units']`. */
  function NextUnits(chain: seq<Block>): int
    requires chain != []
  {
    var current, samples := LastUnits(chain), RecentSamples(chain);
    if samples == [] then current
    else Retarget(current, |samples|, SumSeconds(samples), SumHashes(samples))
  }

  /** `_recent_work_samples_for`. */
  method ComputeRecentSamples(chain: seq<Block>) returns (samples: seq<Sample>)
    requires chain != []
    ensures samples == RecentSamples(chain)
  {
    hide ExpectedHashes, SmoothIndices;
    samples := [];
    if |chain| < 2 {
      NoGaps(chain);
      return;
    }
    var indices := SampleIndices(chain);
    for k := 0 to |indices|
      invariant samples == SamplesAt(chain, indices[..k])
    {
      assert indices[..k + 1][..k] == indices[..k];
      var previous, current := chain[indices[k] - 1].header.timestamp, chain[indices[k]].header;
      if previous <= 0 || current.timestamp <= 0 {
        continue;
      }
      var elapsed := current.timestamp - previous;
      if elapsed <= 0 {
        elapsed := SAMPLE_MIN_SECONDS;
      }
      elapsed := Max(SAMPLE_MIN_SECONDS, elapsed);
      elapsed := Min(SAMPLE_MAX_SECONDS, elapsed);
      samples := samples + [Sample(elapsed, ExpectedHashes(current))];
    }
    assert indices[..|indices|] == indices;
  }

  lemma {:induction false} NoGaps(chain: seq<Block>)
    requires |chain| == 1
    ensures RecentSamples(chain) == []
  {
  }

  method ComputeNextUnits(chain: seq<Block>) returns (units: int)
    requires chain != []
    ensures units == NextUnits(chain)
    ensures Smooth(chain) && |chain| == 1 ==> units == INITIAL_DIFFICULTY_UNITS
    ensures Smooth(chain) && |chain| > 1 && InRange(chain[|chain| - 1].header.difficulty) ==>
              var current := chain[|chain| - 1].header.difficulty;
              InRange(units) && 100 * units >= 67 * current - 50 && 2 * units <= 3 * current + 1
  {
    if Smooth(chain) && (|chain| > 1 ==> InRange(chain[|chain| - 1].header.difficulty)) {
      NextUnitsBounds(chain);
    }
    hide RecentSamples, Retarget, LastUnits, Smooth;
    var current := LastUnits(chain);
    var samples := ComputeRecentSamples(chain);
    if samples == [] {
      return current;
    }
    return Retarget(current, |samples|, SumSeconds(samples), SumHashes(samples));
  }

  lemma {:induction false} RoundNear(x: real)
    ensures x - 0.5 <= Round(x) as real <= x + 0.5
  {
  }

  lemma {:induction false} RoundMonotone(x: real, y: real)
    requires x <= y
    ensures Round(x) <= Round(y)
  {
    if x.Floor < y.Floor {
      RoundNear(x);
    }
  }

  lemma {:induction false} RoundExact(n: int)
    ensures Round(n as real) == n
  {
  }

  lemma {:induction false} MulReal(k: real, a: real, b: real)
    requires k >= 0.0 && a <= b
    ensures k * a <= k * b
  {
  }

  lemma {:induction false} DivReal(n: real, a: real, b: real)
    requires n >= 0.0 && 0.0 < a <= b
    ensures n / b <= n / a
  {
    var q := n / b;
    assert q * b == n;
    MulReal(q, a, b);
    assert q * a <= n;
    assert (q * a) / a == q;
    DivByPositive(q * a, n, a);
  }

  lemma {:induction false} DivByPositive(a: real, b: real, k: real)
    requires k > 0.0 && a <= b
    ensures a / k <= b / k
  {
  }

  lemma {:induction false} AverageAtLeast(count: nat, seconds: int)
    requires count > 0 && seconds >= SAMPLE_MIN_SECONDS * count
    ensures seconds as real / count as real >= 37.0
  {
    DivByPositive(37.0 * count as real, seconds as real, count as real);
  }

  lemma {:induction false} RoundedBounds(current: int, x: real)
    requires InRange(current) && 0.67 * current as real <= x <= 1.5 * current as real
    ensures var next := RoundAndClamp(x);
            InRange(next) && 100 * next >= 67 * current - 50 && 2 * next <= 3 * current + 1
  {
    RoundNear(x);
  }

  lemma {:induction false} RoundedMonotone(x: real, y: real)
    requires x <= y
    ensures RoundAndClamp(x) <= RoundAndClamp(y)
  {
    RoundMonotone(x, y);
  }

  lemma {:induction false} ScaledMonotone(current: int, low: real, high: real)
    requires current >= 0 && low <= high
    ensures Scaled(current, low) <= Scaled(current, high)
  {
    MulReal(current as real, low, high);
  }

  lemma {:induction false} AdjustedBounds(current: int, ratio: real)
    requires InRange(current) && 0.67 <= ratio <= 1.5
    ensures var next := Adjusted(current, ratio);
            InRange(next) && 100 * next >= 67 * current - 50 && 2 * next <= 3 * current + 1
  {
    ScaledMonotone(current, 0.67, ratio);
    ScaledMonotone(current, ratio, 1.5);
    RoundedBounds(current, Scaled(current, ratio));
  }

  /** One retarget step stays in range, falls at most to 0.67 and rises at most to 1.50 of the current value. */
  lemma {:induction false} RetargetBounds(current: int, count: nat, seconds: int, hashes: real)
    requires InRange(current) && count > 0 && seconds >= SAMPLE_MIN_SECONDS * count
    ensures var next := Retarget(current, count, seconds, hashes);
            InRange(next) && 100 * next >= 67 * current - 50 && 2 * next <= 3 * current + 1
    ensures MaxUp(seconds as real / count as real) <= 1.5
  {
    AverageAtLeast(count, seconds);
    AdjustedBounds(current, CappedRatio(current, seconds as real / count as real, DesiredUnits(seconds, hashes)));
  }

  lemma {:induction false} ScaleReal(a: real, b: real)
    requires a <= b
    ensures a * 150.0 * 1000000.0 / 4096.0 <= b * 150.0 * 1000000.0 / 4096.0
  {
  }

  lemma {:induction false} WantedAntitone(seconds: int, longer: int, hashes: real)
    requires 1 <= seconds <= longer && hashes >= 0.0
    ensures WantedUnits(longer, hashes) <= WantedUnits(seconds, hashes)
  {
    DivReal(hashes, seconds as real, longer as real);
    ScaleReal(hashes / longer as real, hashes / seconds as real);
  }

  lemma {:induction false} DesiredAntitone(seconds: int, longer: int, hashes: real)
    requires 1 <= seconds <= longer && hashes >= 0.0
    ensures DesiredUnits(longer, hashes) <= DesiredUnits(seconds, hashes)
  {
    WantedAntitone(seconds, longer, hashes);
    RoundedMonotone(WantedUnits(longer, hashes), WantedUnits(seconds, hashes));
  }

  lemma {:induction false} CappedMonotone(current: int, slower: real, faster: real, low: int, high: int)
    requires faster <= slower && low <= high
    ensures CappedRatio(current, slower, low) <= CappedRatio(current, faster, high)
  {
    DivByPositive(low as real, high as real, Max(1, current) as real);
  }

  lemma {:induction false} AdjustedMonotone(current: int, low: real, high: real)
    requires current >= 0 && low <= high
    ensures Adjusted(current, low) <= Adjusted(current, high)
  {
    ScaledMonotone(current, low, high);
    RoundedMonotone(Scaled(current, low), Scaled(current, high));
  }

  /** More total time for the same work never asks for a harder block, through every clamp and cap. */
  lemma {:induction false} RetargetAntitone(current: int, count: nat, seconds: int, longer: int, hashes: real)
    requires InRange(current) && count > 0 && 1 <= seconds <= longer && hashes >= 0.0
    ensures Retarget(current, count, longer, hashes) <= Retarget(current, count, seconds, hashes)
  {
    var slower, faster := longer as real / count as real, seconds as real / count as real;
    var low, high := DesiredUnits(longer, hashes), DesiredUnits(seconds, hashes);
    DesiredAntitone(seconds, longer, hashes);
    DivByPositive(seconds as real, longer as real, count as real);
    CappedMonotone(current, slower, faster, low, high);
    AdjustedMonotone(current, CappedRatio(current, slower, low), CappedRatio(current, faster, high));
  }

  /** The headers of an accepted chain, as far as the retarget reads them. */
  ghost predicate Smooth(chain: seq<Block>) {
    && chain != []
    && (forall i :: 0 <= i < |chain| ==> chain[i].header.height == i && chain[i].header.timestamp > 0)
    && (forall i :: 1 <= i < |chain| ==> chain[i].header.version == 2)
  }

  lemma {:induction false} AllIndicesSmooth(chain: seq<Block>, n: nat)
    requires Smooth(chain) && 1 <= n <= |chain|
    ensures |SmoothIndices(chain, n)| == n - 1
    ensures forall j :: 0 <= j < n - 1 ==> SmoothIndices(chain, n)[j] == j + 1
  {
    if n > 1 {
      AllIndicesSmooth(chain, n - 1);
    }
  }

  /** The gap that ends at block `i`, as the retarget reads it. */
  ghost predicate IsGap(chain: seq<Block>, i: nat, sample: Sample)
    requires 1 <= i < |chain|
  {
    && sample.elapsed == ClampSeconds(chain[i].header.timestamp - chain[i - 1].header.timestamp)
    && sample.hashes == ExpectedHashes(chain[i].header)
  }

  lemma {:induction false} NotSkipped(chain: seq<Block>, indices: seq<nat>)
    requires Smooth(chain) && indices != []
    requires forall i :: 0 <= i < |indices| ==> 1 <= indices[i] < |chain|
    ensures var n := |indices| - 1;
            var here := chain[indices[n]].header;
            SamplesAt(chain, indices) == SamplesAt(chain, indices[..n])
              + [Sample(ClampSeconds(here.timestamp - chain[indices[n] - 1].header.timestamp), ExpectedHashes(here))]
  {
    hide ClampSeconds, ExpectedHashes;
  }

  lemma {:induction false} NoneSkipped(chain: seq<Block>, indices: seq<nat>)
    requires Smooth(chain)
    requires forall i :: 0 <= i < |indices| ==> 1 <= indices[i] < |chain|
    ensures |SamplesAt(chain, indices)| == |indices|
    ensures forall j :: 0 <= j < |indices| ==> IsGap(chain, indices[j], SamplesAt(chain, indices)[j])
  {
    hide ClampSeconds, ExpectedHashes, Smooth;
    if indices != [] {
      hide SamplesAt;
      NoneSkipped(chain, indices[..|indices| - 1]);
      NotSkipped(chain, indices);
    }
  }

  lemma {:induction false} LastGaps(chain: seq<Block>)
    requires Smooth(chain)
    ensures |SampleIndices(chain)| == SampleCount(chain)
    ensures forall j :: 0 <= j < SampleCount(chain) ==> SampleIndices(chain)[j] == |chain| - SampleCount(chain) + j
  {
    AllIndicesSmooth(chain, |chain|);
  }

  /** The difficulty rule of an accepted chain reads exactly the last min(12, height) adjacent gaps. */
  lemma {:induction false} SamplesOfChain(chain: seq<Block>)
    requires Smooth(chain)
    ensures var s, n := RecentSamples(chain), SampleCount(chain);
            && |s| == n
            && forall j :: 0 <= j < n ==>
                 var i := |chain| - n + j;
                 && s[j].elapsed == ClampSeconds(chain[i].header.timestamp - chain[i - 1].header.timestamp)
                 && s[j].hashes == ExpectedHashes(chain[i].header)
  {
    hide ClampSeconds, ExpectedHashes, SampleIndices, Smooth, SampleCount, SamplesAt;
    LastGaps(chain);
    NoneSkipped(chain, SampleIndices(chain));
    var s, n := RecentSamples(chain), SampleCount(chain);
    forall j | 0 <= j < n ensures IsGap(chain, |chain| - n + j, s[j]) {
      assert IsGap(chain, SampleIndices(chain)[j], s[j]);
    }
  }

  lemma {:induction false} SecondsAtLeast(samples: seq<Sample>)
    requires forall j :: 0 <= j < |samples| ==> samples[j].elapsed >= SAMPLE_MIN_SECONDS
    ensures SumSeconds(samples) >= SAMPLE_MIN_SECONDS * |samples|
  {
    if samples != [] {
      SecondsAtLeast(samples[..|samples| - 1]);
    }
  }

  lemma {:induction false} SumsCompare(a: seq<Sample>, b: seq<Sample>)
    requires |a| == |b|
    requires forall j :: 0 <= j < |a| ==> a[j].elapsed <= b[j].elapsed && a[j].hashes == b[j].hashes >= 0.0
    ensures SumSeconds(a) <= SumSeconds(b) && SumHashes(a) == SumHashes(b) >= 0.0
  {
    if a != [] {
      SumsCompare(a[..|a| - 1], b[..|b| - 1]);
    }
  }

  /** What the next difficulty of an accepted chain may be, from the difficulty of its tip. */
  lemma {:induction false} NextUnitsBounds(chain: seq<Block>)
    requires Smooth(chain)
    requires |chain| > 1 ==> InRange(chain[|chain| - 1].header.difficulty)
    ensures InRange(NextUnits(chain))
    ensures |chain| == 1 ==> NextUnits(chain) == INITIAL_DIFFICULTY_UNITS
    ensures |chain| > 1 ==>
              var cur, next := chain[|chain| - 1].header.difficulty, NextUnits(chain);
              100 * next >= 67 * cur - 50 && 2 * next <= 3 * cur + 1
  {
    SamplesOfChain(chain);
    var s := RecentSamples(chain);
    SecondsAtLeast(s);
    if |chain| > 1 {
      RetargetBounds(LastUnits(chain), |s|, SumSeconds(s), SumHashes(s));
    }
  }

  lemma {:induction false} ClampMonotone(a: int, b: int)
    requires a <= b
    ensures SAMPLE_MIN_SECONDS <= ClampSeconds(a) <= ClampSeconds(b)
  {
  }

  lemma {:induction false} HashesByDifficulty(a: Header, b: Header)
    requires a.version == b.version == 2 && a.difficulty == b.difficulty
    ensures ExpectedHashes(a) == ExpectedHashes(b) >= 0.0
  {
  }

  /**
   For the same difficulties in the window, pointwise longer gaps between its blocks never raise the next difficulty.
   */
  lemma {:induction false} SlowerBlocksNeverRaise(fast: seq<Block>, slow: seq<Block>)
    requires Smooth(fast) && Smooth(slow) && |fast| == |slow| > 1
    requires InRange(fast[|fast| - 1].header.difficulty)
    requires forall i :: 1 <= i < |fast| && i >= |fast| - ADJUST_WINDOW ==>
               && fast[i].header.difficulty == slow[i].header.difficulty
               && fast[i].header.timestamp - fast[i - 1].header.timestamp
                  <= slow[i].header.timestamp - slow[i - 1].header.timestamp
    ensures NextUnits(slow) <= NextUnits(fast)
  {
    hide ClampSeconds, ExpectedHashes, RecentSamples, Retarget, SumSeconds, SumHashes;
    SamplesOfChain(fast);
    SamplesOfChain(slow);
    var f, s := RecentSamples(fast), RecentSamples(slow);
    forall j | 0 <= j < |f|
      ensures SAMPLE_MIN_SECONDS <= f[j].elapsed <= s[j].elapsed && f[j].hashes == s[j].hashes >= 0.0
    {
      var i := |fast| - |f| + j;
      var short := fast[i].header.timestamp - fast[i - 1].header.timestamp;
      var long := slow[i].header.timestamp - slow[i - 1].header.timestamp;
      ClampMonotone(short, long);
      HashesByDifficulty(fast[i].header, slow[i].header);
    }
    SecondsAtLeast(f);
    SumsCompare(f, s);
    RetargetAntitone(LastUnits(fast), |f|, SumSeconds(f), SumSeconds(s), SumHashes(f));
  }

  function SumUnits(chain: seq<Block>, count: nat): int
    requires count < |chain|
  {
    if count == 0 then 0 else SumUnits(chain, count - 1) + chain[|chain| - count].header.difficulty
  }

  function SumGaps(chain: seq<Block>, count: nat): int
    requires count < |chain|
  {
    if count == 0 then 0
    else
      var i := |chain| - count;
      SumGaps(chain, count - 1) + GapSeconds(chain[i].header.timestamp - chain[i - 1].header.timestamp)
  }

  /** A gap as it counts: between 37 and 600 seconds. */
  function GapSeconds(elapsed: int): int {
    if elapsed < 37 then 37 else if elapsed > 600 then 600 else elapsed
  }

  lemma {:induction false} ClampIsGap(elapsed: int)
    ensures ClampSeconds(elapsed) == GapSeconds(elapsed)
  {
  }

  lemma {:induction false} SumsFromTheEnd(chain: seq<Block>, samples: seq<Sample>, count: nat)
    requires Smooth(chain) && count < |chain| && |samples| == count
    requires forall i :: 1 <= i < |chain| ==> chain[i].header.difficulty >= 1
    requires forall j :: 0 <= j < count ==>
               var i := |chain| - count + j;
               && samples[j].elapsed == ClampSeconds(chain[i].header.timestamp - chain[i - 1].header.timestamp)
               && samples[j].hashes == ExpectedHashes(chain[i].header)
    ensures SumSeconds(samples) == SumGaps(chain, count)
    ensures SumHashes(samples) == 4096.0 * (SumUnits(chain, count) as real / 1000000.0)
  {
    if count > 0 {
      SumsFromTheEnd(chain, samples[1..], count - 1);
      SumFirst(samples);
      var i := |chain| - count;
      ClampIsGap(chain[i].header.timestamp - chain[i - 1].header.timestamp);
    }
  }

  lemma {:induction false} SumFirst(samples: seq<Sample>)
    requires samples != []
    ensures SumSeconds(samples) == samples[0].elapsed + SumSeconds(samples[1..])
    ensures SumHashes(samples) == samples[0].hashes + SumHashes(samples[1..])
  {
    var n := |samples| - 1;
    if n > 0 {
      SumFirst(samples[..n]);
      assert samples[..n][1..] == samples[1..][..n - 1];
    }
  }

  /** `150 * units / seconds`, rounded and clamped. */
  function UnitsAtPace(units: int, seconds: int): int
    requires seconds >= 1
  {
    RoundAndClamp(150.0 * units as real / seconds as real)
  }

  lemma {:induction false} ScaleOfTotals(units: int, seconds: int)
    requires seconds >= 1
    ensures DesiredUnits(seconds, 4096.0 * (units as real / 1000000.0)) == UnitsAtPace(units, seconds)
  {
    hide RoundAndClamp;
    RescaleUnits(units as real, seconds as real);
  }

  lemma {:induction false} RescaleUnits(u: real, t: real)
    requires t >= 1.0
    ensures (4096.0 * (u / 1000000.0)) / t * 150.0 * 1000000.0 / 4096.0 == 150.0 * u / t
  {
    var q := u / t;
    assert (4096.0 * (u / 1000000.0)) / t == 4096.0 / 1000000.0 * q;
    assert 150.0 * u / t == 150.0 * q;
  }

  lemma {:induction false} TotalsOfChain(chain: seq<Block>)
    requires Smooth(chain) && |chain| > 1
    requires forall i :: 1 <= i < |chain| ==> chain[i].header.difficulty >= 1
    ensures var n, s := SampleCount(chain), RecentSamples(chain);
            && |s| == n && n >= 1
            && SumSeconds(s) == SumGaps(chain, n) >= SAMPLE_MIN_SECONDS
            && SumHashes(s) == 4096.0 * (SumUnits(chain, n) as real / 1000000.0)
  {
    var n, s := SampleCount(chain), RecentSamples(chain);
    SamplesOfChain(chain);
    SecondsAtLeast(s);
    SumsFromTheEnd(chain, s, n);
  }

  /** The wanted difficulty is the rounded, clamped 150 * (sum of difficulties) / (sum of clamped gaps). */
  lemma {:induction false} DesiredByTotals(chain: seq<Block>)
    requires Smooth(chain) && |chain| > 1
    requires forall i :: 1 <= i < |chain| ==> chain[i].header.difficulty >= 1
    ensures var n, s := SampleCount(chain), RecentSamples(chain);
            && SumGaps(chain, n) >= SAMPLE_MIN_SECONDS
            && DesiredUnits(SumSeconds(s), SumHashes(s)) == UnitsAtPace(SumUnits(chain, n), SumGaps(chain, n))
  {
    var n := SampleCount(chain);
    TotalsOfChain(chain);
    ScaleOfTotals(SumUnits(chain, n), SumGaps(chain, n));
  }

  lemma {:induction false} SteadyTotals(chain: seq<Block>, units: int, count: nat)
    requires count < |chain|
    requires forall i :: |chain| - count <= i < |chain| ==>
               && chain[i].header.difficulty == units
               && chain[i].header.timestamp - chain[i - 1].header.timestamp == Consensus.TARGET_BLOCK_SECONDS
    ensures SumUnits(chain, count) == count * units && SumGaps(chain, count) == count * 150
  {
    if count > 0 {
      SteadyTotals(chain, units, count - 1);
    }
  }

  /** A window of one difficulty at exactly the target pace leaves that difficulty unchanged. */
  lemma {:induction false} SteadyPaceIsFixed(chain: seq<Block>, units: int)
    requires Smooth(chain) && |chain| > 1 && InRange(units)
    requires forall i :: 1 <= i < |chain| ==> chain[i].header.difficulty >= 1
    requires forall i :: 1 <= i < |chain| && i >= |chain| - ADJUST_WINDOW ==>
               && chain[i].header.difficulty == units
               && chain[i].header.timestamp - chain[i - 1].header.timestamp == Consensus.TARGET_BLOCK_SECONDS
    ensures NextUnits(chain) == units
  {
    var n, s := SampleCount(chain), RecentSamples(chain);
    DesiredByTotals(chain);
    TotalsOfChain(chain);
    SteadyTotals(chain, units, n);
    SteadyRatio(n, units);
    SteadyCap(units, SumSeconds(s) as real / n as real);
  }

  lemma {:induction false} SteadyRatio(n: nat, units: int)
    requires n > 0
    requires InRange(units)
    ensures UnitsAtPace(n * units, n * 150) == units
  {
    RoundExact(units);
    var u, k := units as real, n as real;
    assert (n * 150) as real == k * 150.0;
    assert (n * units) as real == k * u;
    assert 150.0 * (k * u) == u * (k * 150.0);
    assert u * (k * 150.0) / (k * 150.0) == u;
  }

  lemma {:induction false} SteadyCap(units: int, average: real)
    requires InRange(units)
    ensures Adjusted(units, CappedRatio(units, average, units)) == units
  {
    var u := units as real;
    assert u / u == 1.0;
    assert CappedRatio(units, average, units) == 1.0;
    assert u * 1.0 == u;
    assert Round(u) == units;
  }

  // The next difficulty exactly

  /** `r` is the whole number nearest to `x`, and of two equally near ones the even one. */
  ghost predicate NearestEven(r: int, x: real) {
    && r as real - 0.5 <= x <= r as real + 0.5
    && (x == r as real - 0.5 || x == r as real + 0.5 ==> r % 2 == 0)
  }

  function Held(units: int): int {
    if units < 25_000 then 25_000 else if units > 1_000_000_000_000 then 1_000_000_000_000 else units
  }

  /** `x` rounded and held between 25,000 and 10^12. */
  ghost predicate IsUnits(units: int, x: real) {
    exists r :: NearestEven(r, x) && units == Held(r)
  }

  lemma {:induction false} RoundIsNearest(x: real)
    ensures NearestEven(Round(x), x)
  {
  }

  lemma {:induction false} RoundedIsUnits(x: real)
    ensures IsUnits(RoundAndClamp(x), x)
  {
    hide Round, NearestEven;
    RoundIsNearest(x);
  }

  lemma {:induction false} NearestIsUnique(r: int, s: int, x: real)
    requires NearestEven(r, x) && NearestEven(s, x) && r <= s
    ensures r == s
  {
    assert s as real - r as real <= 1.0;
    assert s - r <= 1;
  }

  /** At most one value is `x` rounded and held. */
  lemma {:induction false} UnitsAreUnique(a: int, b: int, x: real)
    requires IsUnits(a, x) && IsUnits(b, x)
    ensures a == b
  {
    hide NearestEven, Held;
    var r :| NearestEven(r, x) && a == Held(r);
    var s :| NearestEven(s, x) && b == Held(s);
    if r <= s {
      NearestIsUnique(r, s, x);
    } else {
      NearestIsUnique(s, r, x);
    }
  }

  lemma {:induction false} QuotientBounds(desired: int, current: int, k: real)
    requires current >= 1
    ensures var q := desired as real / current as real;
            && (q < k <==> desired as real < k * current as real) && (q > k <==> desired as real > k * current as real)
            && current as real * q == desired as real
  {
    var q, d := desired as real / current as real, current as real;
    assert d * q == desired as real;
    if q < k {
      assert q * d < k * d;
    } else if q > k {
      assert q * d > k * d;
    }
  }

  /** The next difficulty is the wanted one, held between 0.67 and `up` times the current one. */
  ghost predicate Follows(next: int, current: int, desired: int, up: real) {
    if desired as real < 0.67 * current as real then IsUnits(next, 0.67 * current as real)
    else if desired as real > up * current as real then IsUnits(next, up * current as real)
    else next == desired
  }

  lemma {:induction false} AdjustedFollows(current: int, average: real, desired: int)
    requires InRange(current) && InRange(desired) && average >= 15.0
    ensures var up := if average < 60.0 then 1.5 else if average < 120.0 then 1.25 else 1.1;
            Follows(Adjusted(current, CappedRatio(current, average, desired)), current, desired, up)
  {
    hide RoundAndClamp, IsUnits;
    var up := MaxUp(average);
    var ratio := CappedRatio(current, average, desired);
    RatioIs(current, up, desired);
    RoundedIsUnits(0.67 * current as real);
    RoundedIsUnits(up * current as real);
    HeldIsItself(desired);
    assert Scaled(current, 0.67) == 0.67 * current as real && Scaled(current, up) == up * current as real;
  }

  lemma {:induction false} RatioIs(current: int, up: real, desired: int)
    requires current >= 1 && up >= 1.0
    ensures var q, d, c := desired as real / current as real, desired as real, current as real;
            var ratio := MaxReal(0.67, MinReal(up, q));
            if d < 0.67 * c then ratio == 0.67
            else if d > up * c then ratio == up
            else ratio == q && Scaled(current, ratio) == d
  {
    QuotientBounds(desired, current, 0.67);
    QuotientBounds(desired, current, up);
  }

  lemma {:induction false} HeldIsItself(units: int)
    requires InRange(units)
    ensures RoundAndClamp(units as real) == units
  {
    RoundExact(units);
  }

  lemma {:induction false} AverageBelow(total: int, n: nat, k: int)
    requires n > 0
    ensures total as real / n as real < k as real <==> total < k * n
  {
    QuotientBounds(total, n, k as real);
    assert k as real * n as real == (k * n) as real;
  }

  /**
   The next difficulty of a chain, from its last min(12, height) blocks: wanted is 150 seconds times their difficulties
   over the time they took, each gap counted as 37 to 600 seconds. It is followed down to 0.67 of the tip's difficulty,
   and up to 1.50, 1.25 or 1.10 of it as the average gap is below 60, below 120 or at least 120 seconds.
   */
  lemma {:induction false} NextFollowsWanted(chain: seq<Block>) returns (desired: int)
    requires Smooth(chain) && |chain| > 1
    requires InRange(chain[|chain| - 1].header.difficulty)
    requires forall i :: 1 <= i < |chain| ==> chain[i].header.difficulty >= 1
    ensures var n := if |chain| > 12 then 12 else |chain| - 1;
            var time, units := SumGaps(chain, n), SumUnits(chain, n);
            var up := if time < 60 * n then 1.5 else if time < 120 * n then 1.25 else 1.1;
            && time >= 37 * n && IsUnits(desired, 150.0 * units as real / time as real)
            && Follows(NextUnits(chain), chain[|chain| - 1].header.difficulty, desired, up)
  {
    hide Follows, IsUnits, RoundAndClamp, RecentSamples, SumSeconds, SumHashes, SumGaps, SumUnits, Smooth, MaxReal,
         CappedRatio, Adjusted, Scaled;
    var n, s, tip := SampleCount(chain), RecentSamples(chain), chain[|chain| - 1].header.difficulty;
    TipUnits(chain);
    TotalsOfChain(chain);
    DesiredByTotals(chain);
    TimeAtLeast(chain, n);
    var time, units := SumGaps(chain, n), SumUnits(chain, n);
    desired := UnitsAtPace(units, time);
    RoundedIsUnits(150.0 * units as real / time as real);
    HeldInRange(150.0 * units as real / time as real);
    AverageAtLeast(n, time);
    AverageBelow(time, n, 60);
    AverageBelow(time, n, 120);
    AdjustedFollows(tip, time as real / n as real, desired);
  }

  lemma {:induction false} TipUnits(chain: seq<Block>)
    requires Smooth(chain) && |chain| > 1 && chain[|chain| - 1].header.difficulty >= 1
    ensures LastUnits(chain) == chain[|chain| - 1].header.difficulty
  {
  }

  lemma {:induction false} HeldInRange(x: real)
    ensures InRange(RoundAndClamp(x))
  {
  }

  lemma {:induction false} TimeAtLeast(chain: seq<Block>, n: nat)
    requires n < |chain|
    ensures SumGaps(chain, n) >= 37 * n
  {
    if n > 0 {
      TimeAtLeast(chain, n - 1);
    }
  }

  /** On genesis alone the next difficulty is 1,000 times 10^6 units. */
  lemma {:induction false} FirstDifficulty(chain: seq<Block>)
    requires Smooth(chain) && |chain| == 1
    ensures NextUnits(chain) == 1_000_000_000
  {
    NoGaps(chain);
  }
}
