/**
 * Resource sampling and resource-based throttling of the backend
 * (backend/utils/systemResources.js). The operating-system counters
 * (`os.cpus`, `os.totalmem`, `os.freemem`, `process.memoryUsage`) and the
 * clock are inputs; the `setTimeout` waits are not modelled.
 */
module SystemResources {
  import opened Wrappers

  /** The three recommendation tiers, shared with the controller. */
  datatype Tier = Lightweight | Standard | Enhanced

  /** Lightweight < Standard < Enhanced. */
  function Rank(t: Tier): nat {
    match t
    case Lightweight => 0
    case Standard => 1
    case Enhanced => 2
  }

  /** What `calculateResourceUsage` returns: percentages and the time of the sample. */
  datatype Snapshot = Snapshot(cpu: int, memory: int, processMemory: int, timestamp: int)

  /** The counters of one core as `os.cpus()[i].times` reports them. */
  datatype CpuTimes = CpuTimes(user: int, nice: int, sys: int, idle: int, irq: int)

  /** One entry of `getCPUInfo`: the idle time and the total time of a core. */
  datatype CpuInfo = CpuInfo(idle: int, total: int)

  /** The raw readings `calculateResourceUsage` takes, or a failure somewhere in taking them. */
  datatype Measurement =
    | Measured(cpu: int, totalMem: int, freeMem: int, heapUsed: int, heapTotal: int)
    | MeasurementFailed

  /** `Math.floor` of a finite CPU percentage, or the NaN / Infinity a zero total delta gives. */
  datatype CpuReading = Percent(value: int) | NotFinite

  /** `getCPUInfo`: each core's total time is user + nice + sys + idle + irq. */
  function GetCpuInfo(cpus: seq<CpuTimes>): (r: seq<CpuInfo>)
    ensures |r| == |cpus|
    ensures forall i :: 0 <= i < |r| ==> r[i].idle == cpus[i].idle
    ensures forall i :: 0 <= i < |r| ==> r[i].total - r[i].idle == cpus[i].user + cpus[i].nice + cpus[i].sys + cpus[i].irq
  {
    seq(|cpus|, i requires 0 <= i < |cpus| =>
      CpuInfo(cpus[i].idle, cpus[i].user + cpus[i].nice + cpus[i].sys + cpus[i].idle + cpus[i].irq))
  }

  function SumIdle(s: seq<CpuInfo>): int {
    if s == [] then 0 else SumIdle(s[..|s| - 1]) + s[|s| - 1].idle
  }

  function SumTotal(s: seq<CpuInfo>): int {
    if s == [] then 0 else SumTotal(s[..|s| - 1]) + s[|s| - 1].total
  }

  /**
   * `Math.floor(100 - (idle / total) * 100)` over exact rationals; JavaScript
   * evaluates the quotient and product in binary floating point, which can
   * land just below a whole number and floor one lower.
   */
  function CpuPercent(idleDelta: int, totalDelta: int): (r: CpuReading)
    ensures r.NotFinite? <==> totalDelta == 0
    ensures r.Percent? ==>
      r.value as real <= 100.0 - 100.0 * (idleDelta as real) / (totalDelta as real) < r.value as real + 1.0
  {
    if totalDelta == 0 then NotFinite
    else Percent((100.0 - 100.0 * (idleDelta as real) / (totalDelta as real)).Floor)
  }

  /** Local proof step: a part of a positive whole is a share in [0, 1]. */
  lemma ShareBounds(part: real, whole: real)
    requires 0.0 <= part <= whole && 0.0 < whole
    ensures 0.0 <= part / whole <= 1.0
  {
    assert part / whole * whole == part;
  }

  /** Local proof step: `100 * a / b` is 100 times the share `a / b`. */
  lemma ScaledShare(a: real, b: real)
    requires b != 0.0
    ensures 100.0 * a / b == 100.0 * (a / b)
  {
  }

  /** The CPU reading lies in 0..100 whenever the cores were idle for part of the measured time. */
  lemma {:induction false} CpuPercentBounds(idleDelta: int, totalDelta: int)
    requires 0 <= idleDelta <= totalDelta && totalDelta > 0
    ensures CpuPercent(idleDelta, totalDelta).Percent?
    ensures 0 <= CpuPercent(idleDelta, totalDelta).value <= 100
    ensures idleDelta == 0 ==> CpuPercent(idleDelta, totalDelta).value == 100
    ensures idleDelta == totalDelta ==> CpuPercent(idleDelta, totalDelta).value == 0
  {
    var q := (idleDelta as real) / (totalDelta as real);
    ShareBounds(idleDelta as real, totalDelta as real);
    ScaledShare(idleDelta as real, totalDelta as real);
    var x := 100.0 - 100.0 * (idleDelta as real) / (totalDelta as real);
    assert x == 100.0 - 100.0 * q;
    assert idleDelta == 0 ==> x == 100.0;
    assert idleDelta == totalDelta ==> q == 1.0 && x == 0.0;
    var v := CpuPercent(idleDelta, totalDelta).value;
    assert v as real <= x < v as real + 1.0;
  }

  /**
   * `getCPUUsage` after both samples are taken: the loop adds up the per-core
   * differences of idle and total time over the cores of the first sample.
   * When the second sample reports fewer cores, reading `endMeasure[i].idle`
   * past its end throws a TypeError, returned as `None`.
   */
  method GetCpuUsage(startMeasure: seq<CpuInfo>, endMeasure: seq<CpuInfo>) returns (r: Option<CpuReading>)
    ensures r.None? <==> |endMeasure| < |startMeasure|
    ensures r.Some? ==> r.value == CpuPercent(SumIdle(endMeasure[..|startMeasure|]) - SumIdle(startMeasure),
                                              SumTotal(endMeasure[..|startMeasure|]) - SumTotal(startMeasure))
  {
    var idleDifference := 0;
    var totalDifference := 0;
    var i := 0;
    while i < |startMeasure|
      invariant 0 <= i <= |startMeasure|
      invariant i <= |endMeasure|
      invariant idleDifference == SumIdle(endMeasure[..i]) - SumIdle(startMeasure[..i])
      invariant totalDifference == SumTotal(endMeasure[..i]) - SumTotal(startMeasure[..i])
    {
      if i == |endMeasure| {
        return None;
      }
      var idle := endMeasure[i].idle - startMeasure[i].idle;
      var total := endMeasure[i].total - startMeasure[i].total;
      idleDifference := idleDifference + idle;
      totalDifference := totalDifference + total;
      assert endMeasure[..i + 1][..i] == endMeasure[..i];
      assert startMeasure[..i + 1][..i] == startMeasure[..i];
      i := i + 1;
    }
    assert startMeasure[..i] == startMeasure;
    r := Some(CpuPercent(idleDifference, totalDifference));
  }

  /**
   * `Math.floor(((total - free) / total) * 100)`: the share of memory in use,
   * over exact rationals (JavaScript's floating-point product can floor one
   * lower, e.g. 28 for a total of 100 and 71 free).
   */
  function UsedPercent(total: int, free: int): (r: int)
    requires total > 0
    ensures 0 <= free <= total ==> 0 <= r <= 100
    ensures r * total <= 100 * (total - free) < (r + 1) * total
  {
    (100 * (total - free)) / total
  }

  const FallbackUsage: int := 70

  /**
   * `calculateResourceUsage`: the percentages of a successful measurement, or the
   * conservative 70/70/70 snapshot when anything in measuring throws.
   */
  function CalculateResourceUsage(m: Measurement, now: int): (s: Snapshot)
    requires m.Measured? ==> m.totalMem > 0 && m.heapTotal > 0
    ensures s.timestamp == now
    ensures m.MeasurementFailed? ==> s.cpu == 70 && s.memory == 70 && s.processMemory == 70
    ensures m.Measured? ==> s.cpu == m.cpu
    ensures m.Measured? && 0 <= m.freeMem <= m.totalMem ==> 0 <= s.memory <= 100
    ensures m.Measured? && 0 <= m.heapUsed <= m.heapTotal ==> 0 <= s.processMemory <= 100
    ensures m.Measured? ==> s.memory * m.totalMem <= 100 * (m.totalMem - m.freeMem) < (s.memory + 1) * m.totalMem
    ensures m.Measured? ==> s.processMemory * m.heapTotal <= 100 * m.heapUsed < (s.processMemory + 1) * m.heapTotal
  {
    match m
    case Measured(cpu, totalMem, freeMem, heapUsed, heapTotal) =>
      Snapshot(cpu, UsedPercent(totalMem, freeMem), UsedPercent(heapTotal, heapTotal - heapUsed), now)
    case MeasurementFailed =>
      Snapshot(FallbackUsage, FallbackUsage, FallbackUsage, now)
  }

  /** `isUnderHeavyLoad`. */
  predicate IsUnderHeavyLoad(s: Snapshot) {
    s.cpu > 70 || s.memory > 80 || s.processMemory > 75
  }

  /** More load never clears the heavy-load flag. */
  lemma HeavyLoadMonotone(s: Snapshot, t: Snapshot)
    requires s.cpu <= t.cpu && s.memory <= t.memory && s.processMemory <= t.processMemory
    ensures IsUnderHeavyLoad(s) ==> IsUnderHeavyLoad(t)
  {
  }

  /** The snapshot reported after a failed measurement does not count as heavy load. */
  lemma FallbackIsNotHeavyLoad(now: int)
    ensures !IsUnderHeavyLoad(CalculateResourceUsage(MeasurementFailed, now))
  {
  }

  /** The `railway` part of `estimateFreeTierUsage`. */
  datatype RailwayEstimate = RailwayEstimate(
    cpu: int, memory: int, estimatedCreditsUsed: real, isApproachingLimit: bool, recommendedTier: Tier)

  function EstimateFreeTierUsage(s: Snapshot): (e: RailwayEstimate)
    ensures e.cpu == s.cpu && e.memory == s.memory
    ensures e.isApproachingLimit <==> s.cpu > 60 || s.memory > 70
    ensures e.recommendedTier == Lightweight <==> s.cpu > 75
    ensures e.recommendedTier == Standard <==> 50 < s.cpu <= 75
    ensures e.recommendedTier == Enhanced <==> s.cpu <= 50
    ensures 0 <= s.cpu <= 100 && 0 <= s.memory <= 100 ==> 0.0 <= e.estimatedCreditsUsed <= 5.0
  {
    RailwayEstimate(
      s.cpu, s.memory,
      ((s.cpu + s.memory) as real / 200.0) * 5.0,
      s.cpu > 60 || s.memory > 70,
      if s.cpu > 75 then Lightweight else if s.cpu > 50 then Standard else Enhanced)
  }

  /** A busier CPU never gets a higher recommended tier. */
  lemma RecommendedTierAntitone(s: Snapshot, t: Snapshot)
    requires s.cpu <= t.cpu
    ensures Rank(EstimateFreeTierUsage(t).recommendedTier) <= Rank(EstimateFreeTierUsage(s).recommendedTier)
  {
  }

  /** What `throttleIfNeeded` does with `fallback` once the retries are used up. */
  datatype Fallback = FallbackFunction | FallbackValue

  datatype ThrottleOptions = ThrottleOptions(
    cpuThreshold: int, memoryThreshold: int, fallback: Fallback, retryDelay: int, maxRetries: int)

  /** Options as a caller passes them; a missing field takes its default. */
  datatype GivenOptions = GivenOptions(
    cpuThreshold: Option<int>, memoryThreshold: Option<int>, fallback: Option<Fallback>,
    retryDelay: Option<int>, maxRetries: Option<int>)

  /** The destructuring defaults of `throttleIfNeeded`: 70, 80, null, 1000 ms and 3 retries. */
  function WithDefaults(g: GivenOptions): (o: ThrottleOptions)
    ensures g.cpuThreshold.None? ==> o.cpuThreshold == 70
    ensures g.memoryThreshold.None? ==> o.memoryThreshold == 80
    ensures g.fallback.None? ==> o.fallback == FallbackValue
    ensures g.retryDelay.None? ==> o.retryDelay == 1000
    ensures g.maxRetries.None? ==> o.maxRetries == 3
    ensures g.cpuThreshold.Some? ==> o.cpuThreshold == g.cpuThreshold.value
    ensures g.memoryThreshold.Some? ==> o.memoryThreshold == g.memoryThreshold.value
    ensures g.fallback.Some? ==> o.fallback == g.fallback.value
    ensures g.retryDelay.Some? ==> o.retryDelay == g.retryDelay.value
    ensures g.maxRetries.Some? ==> o.maxRetries == g.maxRetries.value
  {
    ThrottleOptions(
      if g.cpuThreshold.Some? then g.cpuThreshold.value else 70,
      if g.memoryThreshold.Some? then g.memoryThreshold.value else 80,
      if g.fallback.Some? then g.fallback.value else FallbackValue,
      if g.retryDelay.Some? then g.retryDelay.value else 1000,
      if g.maxRetries.Some? then g.maxRetries.value else 3)
  }

  /** A sample under both thresholds lets the callback run. */
  predicate Admits(s: Snapshot, o: ThrottleOptions) {
    s.cpu < o.cpuThreshold && s.memory < o.memoryThreshold
  }

  /**
   * The outcome of `throttleIfNeeded`: the callback ran after the sample with the
   * given index, the fallback was used (called when it is a function), or the
   * loop never ran and the promise resolved to `undefined`.
   */
  datatype ThrottleResult = CallbackRan(attempt: nat) | FallbackUsed(called: bool) | Undefined

  /**
   * `throttleIfNeeded`. The `i`-th call of `calculateResourceUsage` returns
   * `samples[i]`; `sampled` is how many samples were taken.
   */
  method ThrottleIfNeeded(samples: seq<Snapshot>, o: ThrottleOptions) returns (r: ThrottleResult, sampled: nat)
    requires o.maxRetries <= |samples|
    ensures r.Undefined? <==> o.maxRetries <= 0
    ensures r.Undefined? ==> sampled == 0
    ensures r.CallbackRan? <==> exists j :: 0 <= j < o.maxRetries && Admits(samples[j], o)
    ensures r.CallbackRan? ==> r.attempt < o.maxRetries && Admits(samples[r.attempt], o)
    ensures r.CallbackRan? ==> sampled == r.attempt + 1
    ensures r.CallbackRan? ==> forall j :: 0 <= j < r.attempt ==> !Admits(samples[j], o)
    ensures r.FallbackUsed? ==> sampled == o.maxRetries && r.called == o.fallback.FallbackFunction?
    ensures sampled <= if o.maxRetries < 0 then 0 else o.maxRetries
  {
    var retries := 0;
    sampled := 0;
    while retries < o.maxRetries
      invariant 0 <= retries < o.maxRetries || retries == 0
      invariant sampled == retries
      invariant forall j :: 0 <= j < retries ==> !Admits(samples[j], o)
    {
      var usage := samples[retries];
      sampled := sampled + 1;
      if Admits(usage, o) {
        return CallbackRan(retries), sampled;
      }
      retries := retries + 1;
      if retries >= o.maxRetries {
        return FallbackUsed(o.fallback.FallbackFunction?), sampled;
      }
      // The source waits `retryDelay` milliseconds here.
    }
    r := Undefined;
  }
}
