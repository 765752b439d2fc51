/** The series of the most recent values with its cached statistics, and the measurement of rates
    built on it. */
module DataSeries {
  import opened Reals
  import opened Statistics
  import opened Wrappers

  /** A value kept between calculations. What the calculation depends on is a parameter, looked at
      only when the value is dirty; `computedFor` is what it was at the latest calculation. */
  class CachedValue<P, T> {
    const calculation: P -> T
    var dirty: bool
    var value: T
    ghost var computedFor: P

    ghost predicate Valid()
      reads this
    {
      !dirty ==> value == calculation(computedFor)
    }

    /** Asking for the value now gives what the calculation gives for the parameters. */
    ghost predicate Agrees(parameters: P)
      reads this
    {
      Valid() && (!dirty ==> calculation(computedFor) == calculation(parameters))
    }

    constructor (calculation: P -> T, initial: T, ghost parameters: P)
      ensures Valid() && dirty && this.calculation == calculation
    {
      this.calculation := calculation;
      dirty := true;
      value := initial;
      computedFor := parameters;
    }

    /** The result belongs to the parameters of the first call since the last mark, not to those of
        this call. */
    method Get(parameters: P) returns (r: T)
      requires Valid()
      modifies this
      ensures Valid() && !dirty
      ensures computedFor == if old(dirty) then parameters else old(computedFor)
      ensures r == calculation(computedFor)
    {
      if dirty {
        var computed := calculation(parameters);
        Keep(computed, parameters);
      }
      r := value;
    }

    /** The end of a calculation, whoever carried it out. */
    method Keep(computed: T, ghost parameters: P)
      requires computed == calculation(parameters)
      modifies this
      ensures Valid() && !dirty && computedFor == parameters
    {
      value := computed;
      dirty := false;
      computedFor := parameters;
    }

    method MarkDirty()
      requires Valid()
      modifies this`dirty
      ensures Valid() && dirty
    {
      dirty := true;
    }
  }

  /** The calculations of the caches. */
  function Means(maths: Mathematics, kind: Kind): seq<real> -> real { w => MeanOf(maths, kind, w) }
  function Deviations(maths: Mathematics, sample: bool): seq<real> -> real { w => DeviationOf(maths, sample, w) }
  function Variances(maths: Mathematics, sample: bool): seq<real> -> real { w => VarianceOf(maths, sample, w) }
  function Roots(maths: Mathematics): seq<real> -> real { w => RmsOf(maths, w) }

  /** After an exception nothing is kept, so any value will do there. */
  function Medians(): seq<real> -> real { w => if MedianOf(w).Some? then MedianOf(w).value else 0.0 }

  /** A cached statistic: what the calculation captures is the window. */
  type Cache = CachedValue<seq<real>, real>

  class Series {
    const maths: Mathematics
    const sample: bool
    var data: seq<real>
    var capacity: nat
    const geometric: Cache
    const arithmetic: Cache
    const harmonic: Cache
    const deviation: Cache
    const variance: Cache
    const rms: Cache
    const median: Cache
    /** Everything added since the last reset. */
    ghost var added: seq<real>

    ghost function Caches(): set<object> {
      {geometric, arithmetic, harmonic, deviation, variance, rms, median}
    }

    /** The seven caches are seven objects, each with its own calculation. */
    ghost predicate Built() {
      && geometric !in {arithmetic, harmonic, deviation, variance, rms, median}
      && arithmetic !in {harmonic, deviation, variance, rms, median}
      && harmonic !in {deviation, variance, rms, median}
      && deviation !in {variance, rms, median}
      && variance !in {rms, median}
      && rms != median
      && geometric.calculation == Means(maths, Geometric)
      && arithmetic.calculation == Means(maths, Arithmetic)
      && harmonic.calculation == Means(maths, Harmonic)
      && deviation.calculation == Deviations(maths, sample)
      && variance.calculation == Variances(maths, sample)
      && rms.calculation == Roots(maths)
      && median.calculation == Medians()
    }

    /** The window is what it should be, and no cache holds anything that recomputing would not give. */
    ghost predicate Valid()
      reads this, Caches()
    {
      && Built()
      && data == Last(added, capacity)
      && geometric.Agrees(data) && arithmetic.Agrees(data) && harmonic.Agrees(data)
      && deviation.Agrees(data) && variance.Agrees(data) && rms.Agrees(data) && median.Agrees(data)
      && (!median.dirty ==> MedianOf(data).Some?)
    }

    constructor (maths: Mathematics, sample: bool, n: nat)
      ensures Valid() && this.maths == maths && this.sample == sample && capacity == n && added == []
      ensures fresh(Caches())
    {
      this.maths := maths;
      this.sample := sample;
      data := [];
      capacity := n;
      added := [];
      geometric := new CachedValue(Means(maths, Geometric), 0.0, []);
      arithmetic := new CachedValue(Means(maths, Arithmetic), 0.0, []);
      harmonic := new CachedValue(Means(maths, Harmonic), 0.0, []);
      deviation := new CachedValue(Deviations(maths, sample), 0.0, []);
      variance := new CachedValue(Variances(maths, sample), 0.0, []);
      rms := new CachedValue(Roots(maths), 0.0, []);
      median := new CachedValue(Medians(), 0.0, []);
    }

    method MarkDirty()
      requires Built()
      requires geometric.Valid() && arithmetic.Valid() && harmonic.Valid()
      requires deviation.Valid() && variance.Valid() && rms.Valid() && median.Valid()
      modifies Caches()
      ensures geometric.Valid() && arithmetic.Valid() && harmonic.Valid()
      ensures deviation.Valid() && variance.Valid() && rms.Valid() && median.Valid()
      ensures geometric.dirty && arithmetic.dirty && harmonic.dirty
      ensures deviation.dirty && variance.dirty && rms.dirty && median.dirty
    {
      arithmetic.MarkDirty();
      geometric.MarkDirty();
      harmonic.MarkDirty();
      median.MarkDirty();
      deviation.MarkDirty();
      variance.MarkDirty();
      rms.MarkDirty();
    }

    method Add(value: real)
      requires Valid()
      modifies this, Caches()
      ensures Valid() && added == old(added) + [value] && capacity == old(capacity)
    {
      LastStep(added, capacity, value);
      data := data + [value];
      if |data| > capacity {
        data := data[1..];
      }
      added := added + [value];
      MarkDirty();
    }

    method Reset()
      requires Valid()
      modifies this, Caches()
      ensures Valid() && added == [] && capacity == old(capacity)
    {
      Clear();
    }

    /** The capacity is set before the window is cleared. */
    method ResetTo(n: nat)
      requires Valid()
      modifies this, Caches()
      ensures Valid() && added == [] && capacity == n
    {
      capacity := n;
      Clear();
    }

    method Clear()
      requires Built()
      requires geometric.Valid() && arithmetic.Valid() && harmonic.Valid()
      requires deviation.Valid() && variance.Valid() && rms.Valid() && median.Valid()
      modifies this`data, this`added, Caches()
      ensures Valid() && added == []
    {
      data := [];
      added := [];
      MarkDirty();
    }

    /** The latest value added; calling it on an empty series is undefined in the source. */
    method Current() returns (r: real)
      requires data != [] && data == Last(added, capacity)
      ensures added != [] && r == Back(added)
    {
      r := data[|data| - 1];
    }

    method Mean(kind: Kind) returns (r: real)
      requires Valid()
      modifies geometric, arithmetic, harmonic
      ensures Valid() && r == MeanOf(maths, kind, data)
    {
      match kind
      case Geometric => r := geometric.Get(data);
      case Harmonic => r := harmonic.Get(data);
      case Arithmetic => r := arithmetic.Get(data);
    }

    /** `private_variance` asks the cache of the mean. */
    method CalculateVariance() returns (r: real)
      requires Valid()
      modifies geometric, arithmetic, harmonic
      ensures Valid() && r == VarianceOf(maths, sample, data)
    {
      if data == [] { return 0.0; }
      var m := Mean(Arithmetic);
      r := VarianceAround(maths, sample, data, m);
    }

    /** The calculation behind this cache uses other caches, so it is a method. */
    method Variance() returns (r: real)
      requires Valid()
      modifies geometric, arithmetic, harmonic, variance
      ensures Valid() && r == VarianceOf(maths, sample, data)
    {
      if variance.dirty {
        var computed := CalculateVariance();
        variance.Keep(computed, data);
      }
      r := variance.value;
    }

    /** `private_stddev` asks the cache of the variance, which asks the cache of the mean. */
    method CalculateDeviation() returns (r: real)
      requires Valid()
      modifies geometric, arithmetic, harmonic, variance
      ensures Valid() && r == DeviationOf(maths, sample, data)
    {
      if data == [] { return 0.0; }
      var v := Variance();
      r := maths.sqrt(v);
    }

    method Stddev() returns (r: real)
      requires Valid()
      modifies geometric, arithmetic, harmonic, variance, deviation
      ensures Valid() && r == DeviationOf(maths, sample, data)
    {
      if deviation.dirty {
        var computed := CalculateDeviation();
        deviation.Keep(computed, data);
      }
      r := deviation.value;
    }

    method Rms() returns (r: real)
      requires Valid()
      modifies rms
      ensures Valid() && r == RmsOf(maths, data)
    {
      r := rms.Get(data);
    }

    /** Nothing stands for the exception of `private_median`, which leaves the cache as it was. */
    method Median() returns (r: Option<real>)
      requires Valid()
      modifies median
      ensures Valid() && r == MedianOf(data)
    {
      if median.dirty {
        var computed := MedianOf(data);
        if computed == None { return None; }
        median.Keep(computed.value, data);
      }
      r := Some(median.value);
    }
  }

  /** The events that the rates stand for. */
  function Represented(rates: seq<real>, t: real): real {
    if rates == [] then 0.0 else Represented(Front(rates), t) + Back(rates) * t
  }

  /** The time that k intervals take. */
  function Span(k: nat, t: int): int {
    if k == 0 then 0 else Span(k - 1, t) + t
  }

  lemma {:induction false} RepresentedIsProduct(rates: seq<real>, t: real)
    ensures Represented(rates, t) == Sum(rates) * t
  {
    if rates != [] {
      RepresentedIsProduct(Front(rates), t);
      var sum, rate := Sum(Front(rates)), Back(rates);
      assert (sum + rate) * t == sum * t + rate * t;
    }
  }

  lemma {:induction false} SpanIsProduct(k: nat, t: int)
    ensures Span(k, t) == k * t
  {
    if k > 0 {
      SpanIsProduct(k - 1, t);
      assert k * t == (k - 1) * t + t;
    }
  }

  lemma RecordOne(rates: seq<real>, n: real, t: real)
    requires t != 0.0
    ensures Represented(rates + [n / t], t) == Represented(rates, t) + n
  {
    assert Front(rates + [n / t]) == rates;
    assert n / t * t == n;
  }

  lemma SuffixGrows(rates: seq<real>, suffix: seq<real>, rate: real)
    requires Last(rates, |suffix|) == suffix
    ensures Last(rates + [rate], |suffix + [rate]|) == suffix + [rate]
  {
  }

  lemma IntervalsFit(k: nat, t: int, elapsed: real)
    requires t > 0 && (k * t) as real <= elapsed
    ensures k as real <= elapsed / t as real
  {
    var n, d := k as real, t as real;
    assert (k * t) as real == n * d;
    QuotientOrder(n, elapsed, d);
  }

  /** The books of a measurement: the events behind the recorded rates and those in progress are those
      counted, each rate took its interval, and `added` are the latest of the rates. */
  ghost predicate Booked(recorded: seq<real>, added: seq<real>, interval: int, current: nat, counted: nat,
                         started: real, last: real)
  {
    && (interval != 0 ==> Represented(recorded, interval as real) + current as real == counted as real)
    && started + Span(|recorded|, interval) as real <= last
    && Last(recorded, |added|) == added
  }

  lemma BookRate(recorded: seq<real>, added: seq<real>, interval: int, current: nat, counted: nat,
                 started: real, last: real, now: real, rate: real)
    requires Booked(recorded, added, interval, current, counted, started, last)
    requires now - last >= interval as real
    requires interval != 0 ==> rate == current as real / interval as real
    ensures Booked(recorded + [rate], added + [rate], interval, 0, counted, started, now)
  {
    if interval != 0 { RecordOne(recorded, current as real, interval as real); }
    SuffixGrows(recorded, added, rate);
  }

  /** What the books say about a positive interval, in closed form. */
  lemma BooksMean(recorded: seq<real>, added: seq<real>, interval: int, current: nat, counted: nat,
                  started: real, last: real)
    requires Booked(recorded, added, interval, current, counted, started, last) && interval > 0
    ensures Sum(recorded) * interval as real == (counted - current) as real
    ensures |recorded| as real <= (last - started) / interval as real
  {
    RepresentedIsProduct(recorded, interval as real);
    SpanIsProduct(|recorded|, interval);
    IntervalsFit(|recorded|, interval, last - started);
  }

  lemma WindowIsLatest(recorded: seq<real>, added: seq<real>, data: seq<real>, capacity: nat)
    requires Last(recorded, |added|) == added && data == Last(added, capacity)
    ensures data == Last(recorded, |data|) && |data| == Min(|added|, capacity)
  {
  }

  function Min(a: nat, b: nat): nat {
    if a < b then a else b
  }

  /** Counts events per interval and adds the rate of each finished interval to its series. Times
      are in seconds. */
  class RateMeasurement {
    const series: Series
    const interval: int
    var current: nat
    var last: real
    /** All calls of `increase_counter`, all rates recorded, and the time of construction. */
    ghost var counted: nat
    ghost var recorded: seq<real>
    ghost const started: real

    ghost predicate Valid()
      reads this, series, series.Caches()
    {
      && series.Valid()
      && Booked(recorded, series.added, interval, current, counted, started, last)
    }

    constructor (maths: Mathematics, sample: bool, n: nat, t: int, now: real)
      ensures Valid() && fresh(series) && fresh(series.Caches()) && interval == t && series.capacity == n
      ensures counted == 0 && recorded == [] && last == started == now
    {
      series := new Series(maths, sample, n);
      interval := t;
      current := 0;
      last, started := now, now;
      counted, recorded := 0, [];
    }

    method IncreaseCounter()
      requires Valid()
      modifies this`current, this`counted
      ensures Valid() && counted == old(counted) + 1
    {
      current := current + 1;
      counted := counted + 1;
    }

    method Step(now: real) returns (finished: bool)
      requires Valid()
      modifies this`current, this`last, this`recorded, series, series.Caches()
      ensures Valid() && (finished <==> now - old(last) >= interval as real)
      ensures !finished ==> current == old(current) && last == old(last) && recorded == old(recorded)
      ensures !finished ==> series.added == old(series.added)
      ensures finished ==> current == 0 && last == now
      ensures finished ==>
        recorded == old(recorded) + [Divide(series.maths, old(current) as real, interval as real)]
      ensures finished ==> series.added == old(series.added) + [recorded[|recorded| - 1]]
      ensures series.capacity == old(series.capacity)
    {
      if now - last >= interval as real {
        Record(now);
        return true;
      }
      return false;
    }

    /** The end of an interval. */
    method Record(now: real)
      requires Valid() && now - last >= interval as real
      modifies this`current, this`last, this`recorded, series, series.Caches()
      ensures Valid() && current == 0 && last == now
      ensures recorded == old(recorded) + [Divide(series.maths, old(current) as real, interval as real)]
      ensures series.added == old(series.added) + [recorded[|recorded| - 1]]
      ensures series.capacity == old(series.capacity)
    {
      var rate := Divide(series.maths, current as real, interval as real);
      ghost var longer := recorded + [rate];
      BookRate(recorded, series.added, interval, current, counted, started, last, now, rate);
      last := now;
      series.Add(rate);
      current := 0;
      recorded := longer;
    }

    /** The inherited reset of the series leaves the running count alone. */
    method Reset()
      requires Valid()
      modifies series, series.Caches()
      ensures Valid() && series.added == [] && series.capacity == old(series.capacity)
    {
      series.Reset();
    }
  }

  /** What the invariant of a measurement says: the series holds the latest of the recorded rates, as
      many as were added since its reset and fit, and no counted event is lost or counted twice. */
  lemma RatesAreConserved(r: RateMeasurement)
    requires r.Valid() && r.interval > 0
    ensures r.series.data == Last(r.recorded, |r.series.data|)
    ensures |r.series.data| == Min(|r.series.added|, r.series.capacity)
    ensures Sum(r.recorded) * r.interval as real == (r.counted - r.current) as real
    ensures |r.recorded| as real <= (r.last - r.started) / r.interval as real
  {
    BooksMean(r.recorded, r.series.added, r.interval, r.current, r.counted, r.started, r.last);
    WindowIsLatest(r.recorded, r.series.added, r.series.data, r.series.capacity);
  }
}
