/**
 Adaptive batch sizes (src/pipeline/adaptive_batching.rs), in real arithmetic: a
 sliding window of latencies, and a size that follows the ratio of the target
 latency to their average.
 */
module AdaptiveBatching {
  import opened Wrappers

  datatype Config = Config(targetLatency: nat, adjustmentFactor: real, windowSize: nat, adjustmentInterval: nat)

  function MinReal(a: real, b: real): real {
    if a < b then a else b
  }

  /** `as usize` of a real: truncated, and 0 below zero. */
  function Truncate(x: real): nat {
    if x < 0.0 then 0 else x.Floor
  }

  // ----- the average

  function Sum(latencies: seq<nat>): nat {
    if latencies == [] then 0 else Sum(latencies[..|latencies| - 1]) + latencies[|latencies| - 1]
  }

  function Average(latencies: seq<nat>): nat {
    if latencies == [] then 0 else Sum(latencies) / |latencies|
  }

  /** The loop behind `iter().sum()`. */
  method AverageLatency(latencies: seq<nat>) returns (average: nat)
    ensures average == Average(latencies)
  {
    if latencies == [] {
      return 0;
    }
    var sum := 0;
    for i := 0 to |latencies|
      invariant sum == Sum(latencies[..i])
    {
      assert latencies[..i + 1][..i] == latencies[..i];
      sum := sum + latencies[i];
    }
    assert latencies[..|latencies|] == latencies;
    average := sum / |latencies|;
  }

  // ----- the new size

  /** How far a ratio of target to average pushes the size: up to a doubling, down to a halving, before scaling. */
  function Push(ratio: real): (push: real)
    ensures -0.5 <= push <= 1.0
    ensures push > 0.0 ==> ratio > 1.2
    ensures push < 0.0 ==> ratio < 0.8
  {
    if ratio > 1.2 then MinReal(ratio - 1.0, 1.0)
    else if ratio < 0.8 then -MinReal(1.0 - ratio, 0.5)
    else 0.0
  }

  function FactorOfRatio(f: real, ratio: real): real {
    1.0 + f * Push(ratio)
  }

  /** The factor for the current size; no average yet means an infinite ratio, or none at all with a zero target. */
  function LatencyFactor(cfg: Config, average: nat): real {
    if average == 0 then (if cfg.targetLatency == 0 then 1.0 else 1.0 + cfg.adjustmentFactor)
    else FactorOfRatio(cfg.adjustmentFactor, cfg.targetLatency as real / average as real)
  }

  /** How far the latency pushes the size, before scaling. */
  function PushOf(cfg: Config, average: nat): real {
    if average > 0 then Push(cfg.targetLatency as real / average as real) else if cfg.targetLatency == 0 then 0.0 else 1.0
  }

  /** The monitor reports the used memory in percent ... */
  function MemoryPressure(used: nat, total: nat): real {
    if total > 0 then used as real / total as real * 100.0 else 0.0
  }

  /** ... which is compared as a fraction. */
  function Factor(cfg: Config, average: nat, pressure: real): real {
    if pressure > 0.8 then 0.8 else LatencyFactor(cfg, average)
  }

  function Clamp(n: nat, min: nat, max: nat): nat {
    var low := if n < min then min else n;
    if low > max then max else low
  }

  function Scaled(current: nat, factor: real): real {
    current as real * factor
  }

  function Resized(current: nat, factor: real, min: nat, max: nat): nat {
    Clamp(Truncate(Scaled(current, factor)), min, max)
  }

  function NewSize(cfg: Config, current: nat, average: nat, pressure: real, min: nat, max: nat): nat {
    Resized(current, Factor(cfg, average, pressure), min, max)
  }

  // ----- arithmetic

  lemma ScaledMonotone(current: nat, a: real, b: real)
    requires a <= b
    ensures Scaled(current, a) <= Scaled(current, b)
  {
  }

  lemma TruncateMonotone(a: real, b: real)
    requires a <= b
    ensures Truncate(a) <= Truncate(b)
  {
  }

  lemma RatioAntitone(target: nat, a: nat, b: nat)
    requires 0 < a <= b
    ensures target as real / b as real <= target as real / a as real
  {
  }

  lemma FactorOfRatioMonotone(f: real, y: real, x: real)
    requires f >= 0.0 && y <= x
    ensures FactorOfRatio(f, y) <= FactorOfRatio(f, x)
  {
  }

  lemma FactorOfRatioBounds(f: real, ratio: real)
    requires f >= 0.0
    ensures FactorOfRatio(f, ratio) <= 1.0 + f
    ensures ratio <= 1.2 ==> FactorOfRatio(f, ratio) <= 1.0
    ensures ratio >= 0.8 ==> FactorOfRatio(f, ratio) >= 1.0
  {
  }

  lemma FactorOfLowRatio(f: real, ratio: real)
    requires ratio < 0.8
    ensures FactorOfRatio(f, ratio) == 1.0 - f * MinReal(1.0 - ratio, 0.5)
  {
  }

  /** With a non-negative adjustment factor the factor never rises with the average. */
  lemma FactorAntitone(cfg: Config, a: nat, b: nat)
    requires 0.0 <= cfg.adjustmentFactor && a <= b
    ensures LatencyFactor(cfg, b) <= LatencyFactor(cfg, a)
  {
    if b > 0 {
      var y := cfg.targetLatency as real / b as real;
      FactorOfRatioBounds(cfg.adjustmentFactor, y);
      if a > 0 {
        RatioAntitone(cfg.targetLatency, a, b);
        FactorOfRatioMonotone(cfg.adjustmentFactor, y, cfg.targetLatency as real / a as real);
      } else if cfg.targetLatency == 0 {
        assert y == 0.0;
      }
    }
  }

  lemma {:induction false} SumMonotone(a: seq<nat>, b: seq<nat>)
    requires |a| == |b| && forall i | 0 <= i < |a| :: a[i] <= b[i]
    ensures Sum(a) <= Sum(b)
  {
    if a != [] {
      SumMonotone(a[..|a| - 1], b[..|b| - 1]);
    }
  }

  lemma DivMonotone(a: nat, b: nat, n: nat)
    requires a <= b && n > 0
    ensures a / n <= b / n
  {
    assert a == n * (a / n) + a % n && b == n * (b / n) + b % n;
    if a / n > b / n {
      MulMonotone(n, b / n + 1, a / n);
    }
  }

  lemma MulMonotone(n: nat, a: nat, b: nat)
    requires a <= b
    ensures n * a <= n * b
  {
  }

  lemma AverageMonotone(a: seq<nat>, b: seq<nat>)
    requires |a| == |b| && forall i | 0 <= i < |a| :: a[i] <= b[i]
    ensures Average(a) <= Average(b)
  {
    if a != [] {
      SumMonotone(a, b);
      DivMonotone(Sum(a), Sum(b), |a|);
    }
  }

  lemma ResizedMonotone(current: nat, f: real, g: real, min: nat, max: nat)
    requires f <= g
    ensures Resized(current, f, min, max) <= Resized(current, g, min, max)
  {
    ScaledMonotone(current, f, g);
    TruncateMonotone(Scaled(current, f), Scaled(current, g));
  }

  // ----- main results

  /** The new size lies between the bounds, and raising any latency of the window never raises it, whatever the pressure. */
  lemma {:induction false} NewSizeBoundedAndAntitone(
      cfg: Config, current: nat, a: seq<nat>, b: seq<nat>, pressure: real, min: nat, max: nat)
    requires 0.0 <= cfg.adjustmentFactor && min <= max
    requires |a| == |b| && forall i | 0 <= i < |a| :: a[i] <= b[i]
    ensures min <= NewSize(cfg, current, Average(a), pressure, min, max) <= max
    ensures NewSize(cfg, current, Average(b), pressure, min, max) <= NewSize(cfg, current, Average(a), pressure, min, max)
  {
    AverageMonotone(a, b);
    FactorAntitone(cfg, Average(a), Average(b));
    ResizedMonotone(current, Factor(cfg, Average(b), pressure), Factor(cfg, Average(a), pressure), min, max);
  }

  /** The ratio against a threshold, without the division. */
  lemma RatioAgainst(target: nat, average: nat, threshold: real)
    requires average > 0
    ensures target as real / average as real > threshold <==> target as real > threshold * average as real
    ensures target as real / average as real < threshold <==> target as real < threshold * average as real
  {
  }

  lemma FactorSteers(cfg: Config, average: nat)
    requires 0.0 <= cfg.adjustmentFactor && average > 0
    ensures cfg.targetLatency as real >= 0.8 * average as real ==> LatencyFactor(cfg, average) >= 1.0
    ensures cfg.targetLatency as real <= 1.2 * average as real ==> LatencyFactor(cfg, average) <= 1.0
  {
    var ratio := cfg.targetLatency as real / average as real;
    RatioAgainst(cfg.targetLatency, average, 0.8);
    RatioAgainst(cfg.targetLatency, average, 1.2);
    FactorOfRatioBounds(cfg.adjustmentFactor, ratio);
  }

  lemma ResizedByOne(current: nat, min: nat, max: nat)
    requires min <= current <= max
    ensures Resized(current, 1.0, min, max) == current
  {
  }

  /** A size within its bounds moves toward the target: not down while the target is at least 0.8 of the average,
   not up while it is at most 1.2 of it, and so not at all in between. */
  lemma SizeSteersTowardTarget(cfg: Config, current: nat, average: nat, pressure: real, min: nat, max: nat)
    requires 0.0 <= cfg.adjustmentFactor && average > 0 && pressure <= 0.8 && min <= current <= max
    ensures cfg.targetLatency as real >= 0.8 * average as real ==> NewSize(cfg, current, average, pressure, min, max) >= current
    ensures cfg.targetLatency as real <= 1.2 * average as real ==> NewSize(cfg, current, average, pressure, min, max) <= current
  {
    FactorSteers(cfg, average);
    ResizedByOne(current, min, max);
    var f := Factor(cfg, average, pressure);
    if f >= 1.0 { ResizedMonotone(current, 1.0, f, min, max); }
    if f <= 1.0 { ResizedMonotone(current, f, 1.0, min, max); }
  }

  // ----- pressure in percent against a fraction

  /** What the factor adds to one: the push, scaled. */
  function GainOf(cfg: Config, average: nat): real {
    cfg.adjustmentFactor * PushOf(cfg, average)
  }

  lemma FactorIsGain(cfg: Config, average: nat)
    ensures LatencyFactor(cfg, average) == 1.0 + GainOf(cfg, average)
  {
  }

  /** The threshold is passed as soon as more than 0.8 percent of the memory is used. */
  lemma PressureIsPercent(used: nat, total: nat)
    ensures MemoryPressure(used, total) > 0.8 <==> total > 0 && 1000 * used > 8 * total
  {
    if total > 0 {
      RatioAgainst(used, total, 0.008);
      assert used as real > 0.008 * total as real <==> 1000 * used > 8 * total;
    }
  }

  lemma GrowsByOne(current: nat, gain: real)
    ensures Truncate(current as real * (1.0 + gain)) > current <==> current as real * gain >= 1.0
  {
    assert current as real * (1.0 + gain) == current as real + current as real * gain;
  }

  lemma ResizedGrows(current: nat, gain: real, min: nat, max: nat)
    requires min <= current
    ensures Resized(current, 1.0 + gain, min, max) > current <==> current < max && current as real * gain >= 1.0
  {
    GrowsByOne(current, gain);
  }

  lemma HighPressureNeverGrows(current: nat, min: nat, max: nat)
    requires min <= current
    ensures Resized(current, 0.8, min, max) <= current
  {
    ResizedAtHighPressure(current, min, max);
  }

  lemma GrowsByPush(current: nat, factor: real, gain: real, min: nat, max: nat)
    requires min <= current && factor == 1.0 + gain
    ensures Resized(current, factor, min, max) > current <==> current < max && current as real * gain >= 1.0
  {
    ResizedGrows(current, gain, min, max);
  }

  lemma GrowsAtPressure(cfg: Config, current: nat, average: nat, pressure: real, gain: real, min: nat, max: nat)
    requires min <= current
    ensures LatencyFactor(cfg, average) == 1.0 + gain ==>
              (NewSize(cfg, current, average, pressure, min, max) > current
               <==> pressure <= 0.8 && current < max && current as real * gain >= 1.0)
  {
    if pressure > 0.8 {
      HighPressureNeverGrows(current, min, max);
    } else if LatencyFactor(cfg, average) == 1.0 + gain {
      GrowsByPush(current, LatencyFactor(cfg, average), gain, min, max);
    }
  }

  lemma GrowsByPushAtPressure(cfg: Config, current: nat, average: nat, pressure: real, min: nat, max: nat)
    requires min <= current
    ensures NewSize(cfg, current, average, pressure, min, max) > current
       <==> pressure <= 0.8 && current < max && current as real * GainOf(cfg, average) >= 1.0
  {
    FactorIsGain(cfg, average);
    GrowsAtPressure(cfg, current, average, pressure, GainOf(cfg, average), min, max);
  }

  /**
   Exactly when the size grows: no more than 0.8 percent of the memory is used, there is room below the
   maximum, and the push of the latency is worth at least one event.
   */
  lemma GrowsExactlyWhen(cfg: Config, current: nat, average: nat, used: nat, total: nat, min: nat, max: nat)
    requires min <= current
    ensures NewSize(cfg, current, average, MemoryPressure(used, total), min, max) > current
       <==> (total == 0 || 1000 * used <= 8 * total) && current < max
            && current as real * GainOf(cfg, average) >= 1.0
  {
    PressureIsPercent(used, total);
    GrowsByPushAtPressure(cfg, current, average, MemoryPressure(used, total), min, max);
  }

  lemma ResizedAtHighPressure(current: nat, min: nat, max: nat)
    ensures Truncate(current as real * 0.8) <= current && (current > 0 ==> Truncate(current as real * 0.8) < current)
  {
  }

  /** The size after several calls, each with an average and a pressure. */
  function SizeAfter(cfg: Config, current: nat, calls: seq<(nat, real)>, min: nat, max: nat): nat {
    if calls == [] then current
    else
      var n := |calls| - 1;
      NewSize(cfg, SizeAfter(cfg, current, calls[..n], min, max), calls[n].0, calls[n].1, min, max)
  }

  /** While more than 0.8 percent is used every call takes at least one event off, down to the minimum, whatever the latencies. */
  lemma {:induction false} HighPressureShrinks(cfg: Config, current: nat, calls: seq<(nat, real)>, min: nat, max: nat)
    requires min <= current <= max && forall i | 0 <= i < |calls| :: calls[i].1 > 0.8
    ensures var size := SizeAfter(cfg, current, calls, min, max);
            min <= size <= current && (size == min || size + |calls| <= current)
  {
    if calls != [] {
      var n := |calls| - 1;
      HighPressureShrinks(cfg, current, calls[..n], min, max);
      ResizedAtHighPressure(SizeAfter(cfg, current, calls[..n], min, max), min, max);
    }
  }

  /** With one percent of the memory used a batch of 100 shrinks to 80, although the latency asks for 150. */
  lemma OnePercentShrinks()
    ensures var cfg := Config(1000, 0.5, 10, 0);
            && NewSize(cfg, 100, 1, MemoryPressure(1, 100), 10, 1000) == 80
            && NewSize(cfg, 100, 1, MemoryPressure(0, 100), 10, 1000) == 150
  {
    PressureIsPercent(1, 100);
    PressureIsPercent(0, 100);
    var cfg := Config(1000, 0.5, 10, 0);
    assert PushOf(cfg, 1) == 1.0;
    FactorIsGain(cfg, 1);
    assert LatencyFactor(cfg, 1) == 1.5;
  }

  // ----- one table

  function LastOf(s: seq<nat>, n: nat): seq<nat> {
    if |s| <= n then s else s[|s| - n..]
  }

  class TableState {
    const cfg: Config
    var currentBatchSize: nat
    var window: seq<nat>
    var lastAdjustment: int
    var successes: nat
    var failures: nat
    ghost var recorded: seq<nat>

    /** The window holds the last recorded latencies. */
    ghost predicate Valid()
      reads this
    {
      window == LastOf(recorded, cfg.windowSize)
    }

    constructor (cfg: Config, initial: nat, now: int)
      ensures Valid() && this.cfg == cfg && currentBatchSize == initial && recorded == [] && lastAdjustment == now
    {
      this.cfg, currentBatchSize, window, lastAdjustment := cfg, initial, [], now;
      successes, failures, recorded := 0, 0, [];
    }

    method RecordMetrics(latency: nat)
      requires Valid()
      modifies this
      ensures Valid() && recorded == old(recorded) + [latency]
      ensures currentBatchSize == old(currentBatchSize) && lastAdjustment == old(lastAdjustment)
      ensures if latency < cfg.targetLatency then successes == old(successes) + 1 && failures == 0
              else failures == old(failures) + 1 && successes == 0
    {
      window := window + [latency];
      if |window| > cfg.windowSize {
        window := window[1..];
      }
      recorded := recorded + [latency];
      if latency < cfg.targetLatency {
        successes, failures := successes + 1, 0;
      } else {
        successes, failures := 0, failures + 1;
      }
    }

    /** The size changes only after the interval and with half a window of latencies. */
    method GetBatchSize(now: int, pressure: real, min: nat, max: nat) returns (size: nat)
      requires Valid()
      modifies this
      ensures Valid() && size == currentBatchSize && window == old(window) && recorded == old(recorded)
      ensures currentBatchSize ==
        if now - old(lastAdjustment) >= cfg.adjustmentInterval && |window| >= cfg.windowSize / 2
        then NewSize(cfg, old(currentBatchSize), Average(window), pressure, min, max) else old(currentBatchSize)
      ensures lastAdjustment == if currentBatchSize != old(currentBatchSize) then now else old(lastAdjustment)
    {
      if now - lastAdjustment < cfg.adjustmentInterval {
        return currentBatchSize;
      }
      if |window| >= cfg.windowSize / 2 {
        var average := AverageLatency(window);
        var newSize := CalculateNewBatchSize(cfg, currentBatchSize, average, pressure, min, max);
        if newSize != currentBatchSize {
          currentBatchSize, lastAdjustment := newSize, now;
        }
      }
      size := currentBatchSize;
    }
  }

  method CalculateNewBatchSize(cfg: Config, current: nat, average: nat, pressure: real, min: nat, max: nat) returns (size: nat)
    ensures size == NewSize(cfg, current, average, pressure, min, max)
  {
    var factor := 0.8;
    if pressure <= 0.8 {
      factor := ChooseFactor(cfg, average);
    }
    size := Resize(current, factor, min, max);
  }

  method Resize(current: nat, factor: real, min: nat, max: nat) returns (size: nat)
    ensures size == Resized(current, factor, min, max)
  {
    size := if factor == 1.0 then current else Truncate(current as real * factor);
    size := Clamp(size, min, max);
  }

  method ChooseFactor(cfg: Config, average: nat) returns (factor: real)
    ensures factor == LatencyFactor(cfg, average)
  {
    factor := 1.0;
    if average == 0 {
      if cfg.targetLatency > 0 {
        factor := 1.0 + cfg.adjustmentFactor;
      }
    } else {
      var ratio := cfg.targetLatency as real / average as real;
      if ratio > 1.2 {
        factor := 1.0 + cfg.adjustmentFactor * MinReal(ratio - 1.0, 1.0);
      } else if ratio < 0.8 {
        factor := 1.0 - cfg.adjustmentFactor * MinReal(1.0 - ratio, 0.5);
        FactorOfLowRatio(cfg.adjustmentFactor, ratio);
      }
    }
  }
}
