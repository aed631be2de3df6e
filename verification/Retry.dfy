/** worker/retry/backoff.go. Durations are nanoseconds. The jitter draw is an argument; the
    floating-point products of the source are exact reals here, truncated at the end as the source does. */
module Retry {

  datatype Config = Config(baseDelay: int, maxDelay: int, maxRetries: int, multiplier: real)

  /** A draw of the random generator. */
  type Jitter = x: real | 0.0 <= x < 1.0

  const DEFAULT_CONFIG := Config(500_000_000, 30_000_000_000, 5, 2.0)

  function ConfigOf(configs: map<string, Config>, jobType: string): Config {
    if jobType in configs then configs[jobType] else DEFAULT_CONFIG
  }

  function Power(m: real, n: nat): real {
    if n == 0 then 1.0 else m * Power(m, n - 1)
  }

  /** The delay curve without cap and jitter. */
  function Curve(cfg: Config, k: nat): real {
    cfg.baseDelay as real * Power(cfg.multiplier, k)
  }

  function Cap(top: real, x: real): real {
    if top < x then top else x
  }

  function Ceiling(cfg: Config, attempt: nat): real {
    Cap(cfg.maxDelay as real, Curve(cfg, attempt))
  }

  /** Conversion to an integer duration drops the fraction. */
  function Truncate(x: real): int {
    if x >= 0.0 then x.Floor else -((-x).Floor)
  }

  /** The random part of the ceiling. */
  function Jittered(draw: Jitter, ceiling: real): int {
    Truncate(draw * ceiling)
  }

  function DelayOf(cfg: Config, attempt: int, draw: Jitter): int {
    if attempt <= 0 then 0 else Jittered(draw, Ceiling(cfg, attempt))
  }

  datatype WaitResult = Exhausted | Cancelled | Waited(delay: int)

  class Manager {
    var configs: map<string, Config>

    constructor ()
      ensures configs == map[]
    {
      configs := map[];
    }

    method Register(jobType: string, cfg: Config)
      modifies this
      ensures configs == old(configs)[jobType := cfg]
      ensures ConfigOf(configs, jobType) == cfg
      ensures forall t :: t != jobType ==> ConfigOf(configs, t) == ConfigOf(old(configs), t)
    {
      configs := configs[jobType := cfg];
    }

    method Delay(jobType: string, attempt: int, draw: Jitter) returns (d: int)
      ensures d == DelayOf(ConfigOf(configs, jobType), attempt, draw)
      ensures attempt <= 0 ==> d == 0
      ensures attempt > 0 ==>
                var cfg := if jobType in configs then configs[jobType] else Config(500_000_000, 30_000_000_000, 5, 2.0);
                var top, curve := cfg.maxDelay as real, cfg.baseDelay as real * Power(cfg.multiplier, attempt);
                PartOf(d, draw, if top < curve then top else curve)
    {
      hide Power, Jittered, PartOf;
      if attempt <= 0 {
        return 0;
      }
      var cfg := ConfigOf(configs, jobType);
      var ceiling := Curve(cfg, attempt);
      ghost var top, curve := cfg.maxDelay as real, ceiling;
      if (cfg.maxDelay as real) < ceiling {
        ceiling := cfg.maxDelay as real;
      }
      d := Jittered(draw, ceiling);
      JitteredIsPart(draw, if top < curve then top else curve);
    }

    /** `cancelled` says whether the context ends before the timer does. */
    method Wait(jobType: string, retryCount: int, draw: Jitter, cancelled: bool) returns (r: WaitResult)
      ensures r == Exhausted <==> retryCount >= if jobType in configs then configs[jobType].maxRetries else 5
      ensures r.Waited? ==> r.delay == DelayOf(ConfigOf(configs, jobType), retryCount, draw)
      ensures r == Cancelled <==> retryCount < (if jobType in configs then configs[jobType].maxRetries else 5) && cancelled
                                  && DelayOf(ConfigOf(configs, jobType), retryCount, draw) != 0
    {
      var cfg := ConfigOf(configs, jobType);
      if retryCount >= cfg.maxRetries {
        return Exhausted;
      }
      var delay := Delay(jobType, retryCount, draw);
      if delay == 0 {
        return Waited(0);
      }
      r := if cancelled then Cancelled else Waited(delay);
    }
  }

  // ---- what a delay is ----

  /** `n` is the drawn part of `c` without its fraction, towards zero. */
  predicate PartOf(n: int, draw: Jitter, c: real) {
    var x := draw * c;
    if x >= 0.0 then n as real <= x < n as real + 1.0 else n as real - 1.0 < x <= n as real
  }

  lemma JitteredIsPart(draw: Jitter, ceiling: real)
    ensures PartOf(Jittered(draw, ceiling), draw, ceiling)
  {
  }

  /** The powers behind the curve: none is 1, one is the factor, and they add up. */
  lemma {:induction false} PowerLaw(m: real, j: nat, k: nat)
    ensures Power(m, 0) == 1.0 && Power(m, 1) == m && Power(m, j + k) == Power(m, j) * Power(m, k)
  {
    if j > 0 {
      PowerLaw(m, j - 1, k);
      MultiplyThrough(m, Power(m, j - 1), Power(m, k));
    }
  }

  lemma MultiplyThrough(a: real, b: real, c: real)
    ensures (a * b) * c == a * (b * c)
  {
  }

  // ---- bounds ----

  predicate Sensible(cfg: Config) {
    cfg.baseDelay >= 0 && cfg.maxDelay >= 0 && cfg.multiplier > 1.0
  }

  lemma {:induction false} PowerGrows(m: real, n: nat)
    requires m > 1.0
    ensures 1.0 <= Power(m, n) < Power(m, n + 1)
  {
    if n > 0 {
      PowerGrows(m, n - 1);
    }
    Scaled(1.0, m, Power(m, n));
  }

  lemma Scaled(a: real, b: real, x: real)
    requires a < b && x > 0.0
    ensures a * x < b * x
  {
  }

  lemma ScaledWeakly(a: real, b: real, x: real)
    requires a <= b && x >= 0.0
    ensures a * x <= b * x && x * a <= x * b
  {
  }

  /** The next point of the curve. */
  lemma CurveStep(cfg: Config, k: nat)
    ensures Curve(cfg, k + 1) == cfg.multiplier * Curve(cfg, k)
  {
    Reassociate(cfg.baseDelay as real, cfg.multiplier, Power(cfg.multiplier, k));
  }

  lemma Reassociate(a: real, b: real, c: real)
    ensures a * (b * c) == b * (a * c)
  {
  }

  lemma CurveGrows(cfg: Config, k: nat)
    requires Sensible(cfg)
    ensures 0.0 <= Curve(cfg, k) <= Curve(cfg, k + 1)
  {
    PowerGrows(cfg.multiplier, k);
    ScaledWeakly(0.0, cfg.baseDelay as real, Power(cfg.multiplier, k));
    ScaledWeakly(Power(cfg.multiplier, k), Power(cfg.multiplier, k + 1), cfg.baseDelay as real);
  }

  /** The ceiling is never negative, never above MaxDelay, and never shrinks from one attempt to the next. */
  lemma CeilingBounds(cfg: Config, attempt: nat)
    requires Sensible(cfg)
    ensures 0.0 <= Ceiling(cfg, attempt) <= cfg.maxDelay as real
    ensures Ceiling(cfg, attempt) <= Curve(cfg, attempt)
    ensures Ceiling(cfg, attempt) <= Ceiling(cfg, attempt + 1)
  {
    hide Curve;
    CurveGrows(cfg, attempt);
  }

  lemma JitteredBounds(draw: Jitter, ceiling: real)
    requires ceiling >= 0.0
    ensures 0 <= Jittered(draw, ceiling) && Jittered(draw, ceiling) as real <= ceiling
  {
    ScaledWeakly(0.0, draw, ceiling);
    ScaledWeakly(draw, 1.0, ceiling);
    TruncateBounds(draw * ceiling, ceiling);
  }

  lemma TruncateBounds(x: real, top: real)
    requires 0.0 <= x <= top
    ensures 0 <= Truncate(x) && Truncate(x) as real <= top
  {
  }

  lemma DelayBounds(cfg: Config, attempt: int, draw: Jitter)
    requires Sensible(cfg)
    ensures 0 <= DelayOf(cfg, attempt, draw) <= cfg.maxDelay
    ensures if attempt > 0 then DelayOf(cfg, attempt, draw) as real <= Ceiling(cfg, attempt) else DelayOf(cfg, attempt, draw) == 0
  {
    hide Jittered, Ceiling;
    if attempt > 0 {
      CeilingBounds(cfg, attempt);
      JitteredBounds(draw, Ceiling(cfg, attempt));
    }
  }

  // ---- the sum of all delays ----

  /** The delay curve summed over the attempts 0 < k < n. */
  function CurveSum(cfg: Config, n: int): real {
    if n <= 1 then 0.0 else CurveSum(cfg, n - 1) + Curve(cfg, n - 1)
  }

  lemma {:induction false} GeometricSum(cfg: Config, n: nat)
    requires n >= 1
    ensures CurveSum(cfg, n) * (cfg.multiplier - 1.0) == Curve(cfg, n) - Curve(cfg, 1)
  {
    hide Curve;
    if n > 1 {
      GeometricSum(cfg, n - 1);
      CurveStep(cfg, n - 1);
      OneMoreTerm(cfg.multiplier, CurveSum(cfg, n - 1), Curve(cfg, n - 1));
    }
  }

  lemma OneMoreTerm(m: real, s: real, c: real)
    ensures (s + c) * (m - 1.0) == s * (m - 1.0) + m * c - c
  {
  }

  /** MaxDelay for each of these attempts. */
  function CapSum(cfg: Config, n: int): int {
    if n <= 1 then 0 else CapSum(cfg, n - 1) + cfg.maxDelay
  }

  lemma {:induction false} CapSumProduct(cfg: Config, n: nat)
    requires n >= 1
    ensures CapSum(cfg, n) == (n - 1) * cfg.maxDelay
  {
    if n > 1 {
      CapSumProduct(cfg, n - 1);
      assert (n - 1) * cfg.maxDelay == (n - 2) * cfg.maxDelay + cfg.maxDelay;
    }
  }

  /** What can have been waited for after attempts below `n`, if the configuration makes sense. */
  predicate WaitFits(cfg: Config, total: int, n: int) {
    Sensible(cfg) ==> 0 <= total <= CapSum(cfg, n) && total as real <= CurveSum(cfg, n)
  }

  lemma {:induction false} NoWaitFits(cfg: Config, n: int)
    ensures WaitFits(cfg, 0, n)
    decreases n
  {
    hide Curve;
    if n > 1 {
      NoWaitFits(cfg, n - 1);
      if Sensible(cfg) {
        CurveGrows(cfg, n - 1);
      }
    }
  }

  lemma {:induction false} WaitFitsLater(cfg: Config, total: int, n: int, m: int)
    requires WaitFits(cfg, total, n) && n <= m
    ensures WaitFits(cfg, total, m)
    decreases m
  {
    hide Curve;
    if n < m && m > 1 {
      WaitFitsLater(cfg, total, n, m - 1);
      if Sensible(cfg) {
        CurveGrows(cfg, m - 1);
      }
    }
  }

  /** One more delay, for attempt `n`. */
  lemma WaitFitsOneMore(cfg: Config, total: int, n: int, draw: Jitter)
    requires WaitFits(cfg, total, n)
    ensures WaitFits(cfg, total + DelayOf(cfg, n, draw), n + 1)
  {
    hide Curve, Ceiling, DelayOf;
    if Sensible(cfg) {
      DelayBounds(cfg, n, draw);
      if n > 0 {
        CeilingBounds(cfg, n);
      }
    }
  }

  /** All delays below MaxRetries together: at most MaxDelay for each attempt but the last, and at most
      BaseDelay*(m^MaxRetries - m)/(m-1), which is multiplied out here. */
  predicate WaitBounded(cfg: Config, total: int) {
    if cfg.maxRetries < 1 then total == 0
    else
      && 0 <= total <= (cfg.maxRetries - 1) * cfg.maxDelay
      && total as real * (cfg.multiplier - 1.0) <= Curve(cfg, cfg.maxRetries) - Curve(cfg, 1)
  }

  lemma LifetimeWait(cfg: Config, total: int)
    requires Sensible(cfg) && WaitFits(cfg, total, cfg.maxRetries)
    ensures WaitBounded(cfg, total)
  {
    hide Curve;
    if cfg.maxRetries >= 1 {
      hide CurveSum, CapSum;
      CapSumProduct(cfg, cfg.maxRetries);
      GeometricSum(cfg, cfg.maxRetries);
      ScaledWeakly(total as real, CurveSum(cfg, cfg.maxRetries), cfg.multiplier - 1.0);
    }
  }
}
