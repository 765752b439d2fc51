/** Histograms with bins of one width. What the bins hold is a fold over the values offered; the
    class does it in place, the lemmas say what the fold means. */
module Histogram {
  import opened Reals
  import opened Wrappers

  datatype Shape = Shape(lower: real, upper: real, width: real, n: nat)

  datatype Bin = Bin(lower: real, upper: real, count: nat)

  const INT_RANGE: nat := 0x1_0000_0000
  const INT_LIMIT: nat := 0x8000_0000
  const LONG_RANGE: nat := 0x1_0000_0000_0000_0000

  /** Where bin i begins. */
  function Edge(h: Shape, i: int): real {
    h.lower + i as real * h.width
  }

  predicate Accepts(h: Shape, v: real) {
    h.lower <= v < h.upper
  }

  /** The bins reach at least as far as values are accepted. */
  predicate Covered(h: Shape) {
    h.lower < h.upper ==> h.width > 0.0 && h.upper <= Edge(h, h.n)
  }

  /** The bins reach exactly as far as values are accepted. */
  predicate Exact(h: Shape) {
    h.upper == Edge(h, h.n)
  }

  function BinOf(h: Shape, v: real): int
    requires h.width != 0.0
  {
    ((v - h.lower) / h.width).Floor
  }

  lemma FloorIsInterval(q: real, i: int)
    ensures q.Floor == i <==> i as real <= q < (i + 1) as real
  {
    assert q.Floor as real <= q < (q.Floor + 1) as real;
  }

  lemma FloorIff(x: real, w: real, i: int)
    requires w > 0.0
    ensures (x / w).Floor == i <==> i as real * w <= x < (i + 1) as real * w
  {
    FloorIsInterval(x / w, i);
    QuotientOrder(i as real, x, w);
    QuotientOrder((i + 1) as real, x, w);
  }

  /** Bins are half-open intervals; a value on an edge belongs to the upper bin. */
  lemma BinIsInterval(h: Shape, v: real, i: int)
    requires h.width > 0.0
    ensures BinOf(h, v) == i <==> Edge(h, i) <= v < Edge(h, i + 1)
  {
    FloorIff(v - h.lower, h.width, i);
  }

  lemma EdgesIncrease(h: Shape, i: int, j: int)
    requires h.width > 0.0
    ensures Edge(h, i) < Edge(h, j) <==> i < j
  {
    ScaleOrder(j as real, i as real, h.width);
  }

  /** An accepted value has a bin. */
  lemma AcceptedHasBin(h: Shape, v: real)
    requires Covered(h) && Accepts(h, v)
    ensures h.width > 0.0 && 0 <= BinOf(h, v) < h.n
  {
    var i := BinOf(h, v);
    BinIsInterval(h, v, i);
    if i < 0 {
      if i + 1 < 0 { EdgesIncrease(h, i + 1, 0); }
      assert false;
    }
    if i >= h.n {
      if h.n < i { EdgesIncrease(h, h.n, i); }
      assert false;
    }
  }

  /** `reset` with a new number of bins keeps bounds and width. Every accepted value still has a bin
      exactly when the number did not shrink. */
  lemma ResizeIsSafeIff(h: Shape, n: nat)
    requires Exact(h) && h.width > 0.0 && h.n > 0
    ensures (forall v :: Accepts(h, v) ==> 0 <= BinOf(h, v) < n) <==> n >= h.n
    ensures Covered(h.(n := n)) <==> n >= h.n
  {
    EdgesIncrease(h, 0, h.n);
    EdgesIncrease(h, n, h.n);
    if n >= h.n {
      forall v | Accepts(h, v) ensures 0 <= BinOf(h, v) < n { AcceptedHasBin(h, v); }
    } else {
      var v := Edge(h, n);
      if n > 0 { EdgesIncrease(h, 0, n); }
      EdgesIncrease(h, n, n + 1);
      BinIsInterval(h, v, n);
      assert Accepts(h, v) && BinOf(h, v) == n;
    }
  }

  /** The width of n bins between two bounds; `overZero` stands for the division by no bins. */
  function BinWidth(n: nat, lower: real, upper: real, overZero: real -> real): real {
    if n == 0 then overZero(upper - lower) else (upper - lower) / n as real
  }

  /** The bins together are as wide as the bounds are apart; without bins the division by zero decides. */
  lemma BinWidthMeaning(n: nat, lower: real, upper: real, overZero: real -> real)
    ensures n > 0 ==> BinWidth(n, lower, upper, overZero) * n as real == upper - lower
    ensures n == 0 ==> BinWidth(n, lower, upper, overZero) == overZero(upper - lower)
  {
  }

  function Empty(n: nat): (bins: seq<nat>)
    ensures |bins| == n && forall i :: 0 <= i < n ==> bins[i] == 0
  {
    seq(n, _ => 0)
  }

  /** The bins after offering one more value. */
  function Added(h: Shape, bins: seq<nat>, v: real): (after: seq<nat>)
    requires Covered(h) && |bins| == h.n
    ensures |after| == h.n
  {
    if Accepts(h, v) then
      AcceptedHasBin(h, v);
      bins[BinOf(h, v) := bins[BinOf(h, v)] + 1]
    else bins
  }

  /** The bins after offering the values one by one to an empty histogram. */
  function Tally(h: Shape, offered: seq<real>): (bins: seq<nat>)
    requires Covered(h)
    ensures |bins| == h.n
  {
    if offered == [] then Empty(h.n)
    else Added(h, Tally(h, offered[..|offered| - 1]), offered[|offered| - 1])
  }

  lemma TallyStep(h: Shape, offered: seq<real>, v: real)
    requires Covered(h)
    ensures Tally(h, offered + [v]) == Added(h, Tally(h, offered), v)
  {
    assert (offered + [v])[..|offered|] == offered;
  }

  /** The values taken in, in the order in which they were offered. */
  function Accepted(h: Shape, offered: seq<real>): seq<real> {
    if offered == [] then []
    else
      var v := offered[|offered| - 1];
      var front := Accepted(h, offered[..|offered| - 1]);
      if Accepts(h, v) then front + [v] else front
  }

  function CountIn(values: seq<real>, from: real, to: real): nat {
    if values == [] then 0
    else
      var v := values[|values| - 1];
      CountIn(values[..|values| - 1], from, to) + if from <= v < to then 1 else 0
  }

  lemma CountOneMore(values: seq<real>, v: real, from: real, to: real)
    ensures CountIn(values + [v], from, to) == CountIn(values, from, to) + if from <= v < to then 1 else 0
  {
    assert (values + [v])[..|values|] == values;
  }

  /** Each bin holds the number of accepted values in its half-open interval. */
  lemma {:induction false} BinsCount(h: Shape, offered: seq<real>, i: nat)
    requires Covered(h) && i < h.n
    ensures Tally(h, offered)[i] == CountIn(Accepted(h, offered), Edge(h, i), Edge(h, i + 1))
  {
    if offered != [] {
      var front, v := offered[..|offered| - 1], offered[|offered| - 1];
      BinsCount(h, front, i);
      if Accepts(h, v) {
        AcceptedHasBin(h, v);
        BinIsInterval(h, v, i);
        assert Accepted(h, offered) == Accepted(h, front) + [v];
        CountOneMore(Accepted(h, front), v, Edge(h, i), Edge(h, i + 1));
      }
    }
  }

  /** The entries of the first i bins. */
  function Below(bins: seq<nat>, i: nat): nat
    requires i <= |bins|
  {
    if i == 0 then 0 else Below(bins, i - 1) + bins[i - 1]
  }

  lemma {:induction false} BelowAfterBump(bins: seq<nat>, k: nat, i: nat)
    requires k < |bins| && i <= |bins|
    ensures Below(bins[k := bins[k] + 1], i) == Below(bins, i) + if k < i then 1 else 0
  {
    if i > 0 { BelowAfterBump(bins, k, i - 1); }
  }

  lemma {:induction false} BelowEmpty(n: nat, i: nat)
    requires i <= n
    ensures Below(Empty(n), i) == 0
  {
    if i > 0 { BelowEmpty(n, i - 1); }
  }

  /** The first i bins together hold the accepted values below the edge of bin i. */
  lemma {:induction false} BelowCounts(h: Shape, offered: seq<real>, i: nat)
    requires Covered(h) && i <= h.n
    ensures Below(Tally(h, offered), i) == CountIn(Accepted(h, offered), h.lower, Edge(h, i))
  {
    if offered == [] {
      BelowEmpty(h.n, i);
    } else {
      var front, v := offered[..|offered| - 1], offered[|offered| - 1];
      BelowCounts(h, front, i);
      if Accepts(h, v) {
        AcceptedHasBin(h, v);
        var k := BinOf(h, v);
        BelowAfterBump(Tally(h, front), k, i);
        assert Accepted(h, offered) == Accepted(h, front) + [v];
        CountOneMore(Accepted(h, front), v, h.lower, Edge(h, i));
        BinIsInterval(h, v, k);
        EdgesIncrease(h, k, i);
        EdgesIncrease(h, i, k + 1);
      }
    }
  }

  /** No accepted value is lost and none is counted twice. */
  lemma {:induction false} TotalIsAccepted(h: Shape, offered: seq<real>)
    requires Covered(h)
    ensures Below(Tally(h, offered), h.n) == |Accepted(h, offered)|
  {
    if offered == [] {
      BelowEmpty(h.n, h.n);
    } else {
      var front, v := offered[..|offered| - 1], offered[|offered| - 1];
      TotalIsAccepted(h, front);
      if Accepts(h, v) {
        AcceptedHasBin(h, v);
        BelowAfterBump(Tally(h, front), BinOf(h, v), h.n);
      }
    }
  }

  function Middle(h: Shape, i: int): real {
    (i as real + 0.5) * h.width
  }

  /** The weighted sum of the first i bins as `mean` forms it. */
  function Weighted(h: Shape, bins: seq<nat>, i: nat): real
    requires i <= |bins|
  {
    if i == 0 then 0.0 else Weighted(h, bins, i - 1) + bins[i - 1] as real * Middle(h, i - 1)
  }

  function MeanOf(h: Shape, bins: seq<nat>): Option<real>
    requires |bins| == h.n
  {
    if Below(bins, h.n) == 0 then None else Some(Weighted(h, bins, h.n) / Below(bins, h.n) as real)
  }

  lemma {:induction false} WeightedAfterBump(h: Shape, bins: seq<nat>, k: nat, i: nat)
    requires k < |bins| && i <= |bins|
    ensures Weighted(h, bins[k := bins[k] + 1], i) ==
            Weighted(h, bins, i) + if k < i then Middle(h, k) else 0.0
  {
    if i > 0 {
      WeightedAfterBump(h, bins, k, i - 1);
      var c, m := bins[i - 1] as real, Middle(h, i - 1);
      assert (c + 1.0) * m == c * m + m;
    }
  }

  lemma {:induction false} WeightedEmpty(h: Shape, n: nat, i: nat)
    requires i <= n
    ensures Weighted(h, Empty(n), i) == 0.0
  {
    if i > 0 { WeightedEmpty(h, n, i - 1); }
  }

  /** A weighted sum of n middles, measured from the lower bound, is off the sum of the n values by
      at most half a width for each. */
  predicate Near(weighted: real, sum: real, n: real, lower: real, half: real) {
    -(n * half) <= weighted - (sum - n * lower) <= n * half
  }

  lemma {:induction false} WeightedIsNear(h: Shape, offered: seq<real>)
    requires Covered(h)
    ensures Near(Weighted(h, Tally(h, offered), h.n), Sum(Accepted(h, offered)),
                 |Accepted(h, offered)| as real, h.lower, h.width / 2.0)
  {
    if offered == [] {
      WeightedEmpty(h, h.n, h.n);
    } else {
      var front, v := offered[..|offered| - 1], offered[|offered| - 1];
      WeightedIsNear(h, front);
      if Accepts(h, v) {
        var before, taken := Tally(h, front), Accepted(h, front);
        AcceptedHasBin(h, v);
        WeightedAfterBump(h, before, BinOf(h, v), h.n);
        assert (taken + [v])[..|taken|] == taken;
        MiddleIsNear(h, v);
        OneMore(Weighted(h, before, h.n), Sum(taken), |taken| as real, h.lower, h.width / 2.0,
                Middle(h, BinOf(h, v)), v, |taken + [v]| as real);
      }
    }
  }

  lemma OneMore(weighted: real, sum: real, n: real, lower: real, half: real, middle: real, v: real, n': real)
    requires Near(weighted, sum, n, lower, half) && n' == n + 1.0
    requires -half <= middle - (v - lower) <= half
    ensures Near(weighted + middle, sum + v, n', lower, half)
  {
    assert n' * lower == n * lower + lower;
    assert n' * half == n * half + half;
  }

  lemma MiddleIsNear(h: Shape, v: real)
    requires h.width > 0.0
    ensures -(h.width / 2.0) <= Middle(h, BinOf(h, v)) - (v - h.lower) <= h.width / 2.0
  {
    var i := BinOf(h, v);
    BinIsInterval(h, v, i);
    assert Middle(h, i) == i as real * h.width + 0.5 * h.width;
    assert (i + 1) as real * h.width == i as real * h.width + h.width;
  }

  /** `mean` leaves out the lower bound. With the bound added back it is within half a width of the
      true mean; with a lower bound of zero it is so as it stands. */
  lemma MeanIsNear(h: Shape, offered: seq<real>)
    requires Covered(h)
    ensures MeanOf(h, Tally(h, offered)) == None <==> Accepted(h, offered) == []
    ensures Accepted(h, offered) != [] ==>
      var trueMean := Sum(Accepted(h, offered)) / |Accepted(h, offered)| as real;
      -(h.width / 2.0) <= MeanOf(h, Tally(h, offered)).value + h.lower - trueMean <= h.width / 2.0
  {
    TotalIsAccepted(h, offered);
    var taken := Accepted(h, offered);
    if taken != [] {
      WeightedIsNear(h, offered);
      DivideError(Weighted(h, Tally(h, offered), h.n), Sum(taken), |taken| as real, h.lower, h.width / 2.0);
    }
  }

  lemma DivideError(weighted: real, sum: real, n: real, lower: real, half: real)
    requires n > 0.0 && Near(weighted, sum, n, lower, half)
    ensures -half <= weighted / n + lower - sum / n <= half
  {
    var a, b := weighted / n, sum / n;
    assert a * n == weighted && b * n == sum;
    var d := a + lower - b;
    assert d * n == weighted - (sum - n * lower);
    ScaleOrder(d, half, n);
    ScaleOrder(-half, d, n);
  }

  /** `mean` of the values taken in is within half a width of their true mean. */
  predicate MeanHolds(h: Shape, offered: seq<real>)
    requires Covered(h) && Accepted(h, offered) != []
  {
    MeanIsNear(h, offered);
    var trueMean := Sum(Accepted(h, offered)) / |Accepted(h, offered)| as real;
    -(h.width / 2.0) <= MeanOf(h, Tally(h, offered)).value - trueMean <= h.width / 2.0
  }

  /** The mean of a single value is the middle of its bin. */
  lemma MeanOfOne(h: Shape, v: real)
    requires Covered(h) && Accepts(h, v)
    ensures Accepted(h, [v]) == [v] && Sum([v]) == v && h.width > 0.0
    ensures MeanOf(h, Tally(h, [v])) == Some(Middle(h, BinOf(h, v)))
  {
    AcceptedHasBin(h, v);
    assert [v][..0] == [];
    assert Accepted(h, []) == [] && Tally(h, []) == Empty(h.n);
    TotalIsAccepted(h, [v]);
    WeightedAfterBump(h, Empty(h.n), BinOf(h, v), h.n);
    WeightedEmpty(h, h.n, h.n);
  }

  /** A value whose mean is off by more than half a width when the lower bound is not zero. */
  function Witness(h: Shape): real {
    if h.lower < 0.0 then h.lower
    else h.lower + h.width - (if h.lower < h.width then h.lower else h.width) / 2.0
  }

  lemma WitnessIsOff(h: Shape)
    requires Exact(h) && h.width > 0.0 && h.n > 0 && h.lower != 0.0
    ensures Covered(h) && Accepts(h, Witness(h)) && Accepted(h, [Witness(h)]) != []
    ensures !MeanHolds(h, [Witness(h)])
  {
    var v := Witness(h);
    EdgesIncrease(h, h.n, 1);
    EdgesIncrease(h, 0, h.n);
    assert Edge(h, 0) == h.lower && Edge(h, 1) == h.lower + h.width;
    BinIsInterval(h, v, 0);
    MeanOfOne(h, v);
    assert Middle(h, 0) == h.width / 2.0;
  }

  /** The mean is near the true mean for all series of values exactly when the lower bound is zero. */
  lemma MeanHoldsIff(h: Shape)
    requires Exact(h) && Covered(h) && h.width > 0.0 && h.n > 0
    ensures (forall offered :: Accepted(h, offered) != [] ==> MeanHolds(h, offered)) <==> h.lower == 0.0
  {
    if h.lower == 0.0 {
      forall offered | Accepted(h, offered) != [] ensures MeanHolds(h, offered) { MeanIsNear(h, offered); }
    } else {
      WitnessIsOff(h);
    }
  }

  /** One step of the sum in `integral`, whose running value is a 32-bit signed integer. */
  function IntStep(total: int, count: nat): int {
    var low := (total + count) % INT_RANGE;
    if low < INT_LIMIT then low else low - INT_RANGE
  }

  function IntTotal(bins: seq<nat>, i: nat): int
    requires i <= |bins|
  {
    if i == 0 then 0 else IntStep(IntTotal(bins, i - 1), bins[i - 1])
  }

  /** What `integral` returns: the running value read as a 64-bit unsigned integer. */
  function IntegralOf(bins: seq<nat>): nat {
    IntTotal(bins, |bins|) % LONG_RANGE
  }

  lemma {:induction false} IntTotalWraps(bins: seq<nat>, i: nat)
    requires i <= |bins|
    ensures IntTotal(bins, i) == IntStep(0, Below(bins, i))
  {
    if i > 0 {
      IntTotalWraps(bins, i - 1);
      StepAfterStep(Below(bins, i - 1), bins[i - 1]);
    }
  }

  lemma StepAfterStep(a: nat, b: nat)
    ensures IntStep(IntStep(0, a), b) == IntStep(0, a + b)
  {
    var low := a % INT_RANGE;
    assert a == INT_RANGE * (a / INT_RANGE) + low;
    var rest := low + b;
    assert (a + b) % INT_RANGE == rest % INT_RANGE by { SameRemainder(rest, a / INT_RANGE); }
    assert (rest - INT_RANGE) % INT_RANGE == rest % INT_RANGE by { SameRemainder(rest, -1); }
  }

  lemma SameRemainder(x: int, k: int)
    ensures (x + INT_RANGE * k) % INT_RANGE == x % INT_RANGE
  {
    var q, r := x / INT_RANGE, x % INT_RANGE;
    assert x + INT_RANGE * k == INT_RANGE * (q + k) + r;
  }

  /** `integral` is the number of entries exactly while that fits a 32-bit signed integer. */
  lemma IntegralIsExactIff(bins: seq<nat>)
    requires Below(bins, |bins|) < LONG_RANGE - INT_LIMIT
    ensures IntegralOf(bins) == Below(bins, |bins|) <==> Below(bins, |bins|) < 2147483648
  {
    IntTotalWraps(bins, |bins|);
  }

  /** Beyond that it wraps around: the next 2^31 numbers of entries come out as huge ones, and then it
      starts from zero again. */
  lemma IntegralWraps(bins: seq<nat>)
    ensures var total := Below(bins, |bins|);
      && (2147483648 <= total < 4294967296 ==> IntegralOf(bins) == total + 18446744069414584320)
      && (4294967296 <= total < 6442450944 ==> IntegralOf(bins) == total - 4294967296)
  {
    IntTotalWraps(bins, |bins|);
  }

  /** The first bin, from i on, at which the entries so far reach the wanted number. */
  function FirstReaching(bins: seq<nat>, edge: nat, i: nat): (k: nat)
    requires i <= |bins|
    ensures i <= k <= |bins|
    ensures forall j :: i < j <= k ==> Below(bins, j) < edge
    ensures k < |bins| ==> Below(bins, k + 1) >= edge
    decreases |bins| - i
  {
    if i == |bins| || Below(bins, i + 1) >= edge then i else FirstReaching(bins, edge, i + 1)
  }

  /** The number of entries that makes up a share of them. */
  function Portion(total: nat, share: real): (r: nat)
    requires share >= 0.0
    ensures share <= 1.0 ==> r <= total
    ensures r as real <= total as real * share < (r + 1) as real
  {
    ShareOrder(total as real, share);
    FloorIsInterval(total as real * share, (total as real * share).Floor);
    (total as real * share).Floor
  }

  lemma ShareOrder(n: real, share: real)
    requires n >= 0.0 && share >= 0.0
    ensures n * share >= 0.0 && (share <= 1.0 ==> n * share <= n)
  {
    if share <= 1.0 {
      assert n * (1.0 - share) >= 0.0;
      assert n * (1.0 - share) == n - n * share;
    }
  }

  function PercentileOf(h: Shape, bins: seq<nat>, share: real): real
    requires |bins| == h.n && share >= 0.0
  {
    var k := FirstReaching(bins, Portion(IntegralOf(bins), share), 0);
    if k < h.n then Edge(h, k) else h.upper
  }

  /** For a share of at most one, `percentile` gives the edge of the bin in which the wanted number
      of accepted values is reached: fewer lie below the edge and enough below the next one. */
  lemma PercentileMeaning(h: Shape, offered: seq<real>, share: real)
    requires Covered(h) && h.n > 0 && 0.0 <= share <= 1.0
    requires |Accepted(h, offered)| < INT_LIMIT
    ensures var taken := Accepted(h, offered);
            var wanted := Portion(|taken|, share);
            exists k: nat :: && k < h.n
                             && PercentileOf(h, Tally(h, offered), share) == Edge(h, k)
                             && (k == 0 || CountIn(taken, h.lower, Edge(h, k)) < wanted)
                             && wanted <= CountIn(taken, h.lower, Edge(h, k + 1))
  {
    var bins, taken := Tally(h, offered), Accepted(h, offered);
    TotalIsAccepted(h, offered);
    IntegralIsExactIff(bins);
    var k := FirstReaching(bins, Portion(|taken|, share), 0);
    assert k < h.n;
    BelowCounts(h, offered, k);
    BelowCounts(h, offered, k + 1);
  }

  /** When more is wanted than there is, `percentile` gives the upper bound. */
  lemma PercentileBeyond(h: Shape, offered: seq<real>, share: real)
    requires Covered(h) && share >= 0.0
    requires |Accepted(h, offered)| < INT_LIMIT && Portion(|Accepted(h, offered)|, share) > |Accepted(h, offered)|
    ensures PercentileOf(h, Tally(h, offered), share) == h.upper
  {
    var bins, total := Tally(h, offered), |Accepted(h, offered)|;
    TotalIsAccepted(h, offered);
    IntegralIsExactIff(bins);
    var k := FirstReaching(bins, Portion(total, share), 0);
    if k < h.n { BelowGrows(bins, k + 1, h.n); }
  }

  lemma {:induction false} BelowGrows(bins: seq<nat>, i: nat, j: nat)
    requires i <= j <= |bins|
    ensures Below(bins, i) <= Below(bins, j)
  {
    if i < j { BelowGrows(bins, i, j - 1); }
  }

  /** The first of the fullest bins. */
  ghost predicate IsFirstFullest(bins: seq<nat>, upto: nat, k: nat)
    requires upto <= |bins|
  {
    && (k < upto || (k == 0 && upto == 0))
    && (forall j :: 0 <= j < upto ==> bins[j] <= bins[k])
    && (forall j :: 0 <= j < k ==> bins[j] < bins[k])
  }

  class Histogram {
    var lower: real
    var upper: real
    var width: real
    var n: nat
    var bins: seq<nat>
    /** The values offered since the last reset. */
    ghost var offered: seq<real>

    function Form(): Shape
      reads this
    {
      Shape(lower, upper, width, n)
    }

    ghost predicate Valid()
      reads this
    {
      Covered(Form()) && bins == Tally(Form(), offered)
    }

    /** Without bounds: no value is ever accepted. */
    constructor Bare(n: nat)
      ensures Valid() && offered == [] && Form() == Shape(0.0, 0.0, 0.0, n)
    {
      lower, upper, width, this.n := 0.0, 0.0, 0.0, n;
      offered := [];
      bins := Empty(n);
    }

    constructor FromWidth(n: nat, width: real)
      ensures Valid() && offered == [] && Form() == Shape(0.0, width * n as real, width, n)
      ensures Exact(Form())
    {
      lower, upper, this.width, this.n := 0.0, width * n as real, width, n;
      offered := [];
      bins := Empty(n);
      new;
      WidthCovers(Form());
    }

    /** Without bins the width is a division by zero; then only bounds that accept nothing are fit
        for use. */
    constructor FromBounds(n: nat, lower: real, upper: real, overZero: real -> real)
      ensures Form() == Shape(lower, upper, BinWidth(n, lower, upper, overZero), n)
      ensures bins == Empty(n) && offered == [] && (n > 0 ==> Exact(Form()))
      ensures Valid() <==> n > 0 || upper <= lower
    {
      this.lower, this.upper, this.n := lower, upper, n;
      width := BinWidth(n, lower, upper, overZero);
      offered := [];
      bins := Empty(n);
      new;
      if n > 0 { WidthCovers(Form()); } else { NoBinsCover(Form()); }
    }

    method Add(value: real)
      requires Valid()
      modifies this`bins, this`offered
      ensures Valid() && offered == old(offered) + [value]
    {
      offered := offered + [value];
      TallyStep(Form(), old(offered), value);
      if value < lower || value >= upper {
        return;
      }
      AcceptedHasBin(Form(), value);
      var i := BinOf(Form(), value);
      bins := bins[i := bins[i] + 1];
    }

    method Fill(data: seq<real>)
      requires Valid()
      modifies this`bins, this`offered
      ensures Valid() && offered == old(offered) + data
    {
      for k := 0 to |data|
        invariant Valid() && offered == old(offered) + data[..k]
      {
        Add(data[k]);
        assert data[..k + 1] == data[..k] + [data[k]];
      }
      assert data[..|data|] == data;
    }

    method QualifiedBins() returns (result: seq<Bin>)
      requires |bins| == n
      ensures |result| == n
      ensures forall i :: 0 <= i < n ==> result[i] == Bin(Edge(Form(), i), Edge(Form(), i + 1), bins[i])
    {
      result := [];
      var last := lower;
      for i := 0 to |bins|
        invariant |result| == i && last == Edge(Form(), i)
        invariant forall j :: 0 <= j < i ==> result[j] == Bin(Edge(Form(), j), Edge(Form(), j + 1), bins[j])
      {
        var start := last;
        last := last + width;
        NextEdge(Form(), i);
        result := result + [Bin(start, last, bins[i])];
      }
    }

    method Integral() returns (r: nat)
      ensures r == IntegralOf(bins)
    {
      var total := 0;
      for i := 0 to |bins|
        invariant total == IntTotal(bins, i)
      {
        total := IntStep(total, bins[i]);
      }
      r := total % LONG_RANGE;
    }

    /** Nothing for the quotient of zero and zero. */
    method Mean() returns (r: Option<real>)
      requires |bins| == n
      ensures r == MeanOf(Form(), bins)
    {
      var total, weighted := 0.0, 0.0;
      for i := 0 to n
        invariant total == Below(bins, i) as real && weighted == Weighted(Form(), bins, i)
      {
        total := total + bins[i] as real;
        weighted := weighted + bins[i] as real * ((i as real + 0.5) * width);
      }
      r := if total == 0.0 then None else Some(weighted / total);
    }

    /** A negative share has no meaning in the source: a negative number becomes unsigned. */
    method Percentile(share: real) returns (r: real)
      requires |bins| == n && share >= 0.0
      ensures r == PercentileOf(Form(), bins, share)
    {
      var total := Integral();
      var edge := Portion(total, share);
      var below := 0;
      for i := 0 to n
        invariant below == Below(bins, i)
        invariant FirstReaching(bins, edge, 0) == FirstReaching(bins, edge, i)
      {
        below := below + bins[i];
        if below >= edge {
          return Edge(Form(), i);
        }
      }
      return upper;
    }

    /** The centre of the first fullest bin, but without the lower bound: it is that centre exactly
        when the lower bound is zero. */
    method Mode() returns (r: real)
      requires |bins| == n
      ensures exists k: nat :: && IsFirstFullest(bins, n, k)
                               && r == Edge(Form(), k) + width / 2.0 - lower
                               && (r == Edge(Form(), k) + width / 2.0 <==> lower == 0.0)
    {
      var maximum, k := 0, 0;
      for i := 0 to |bins|
        invariant IsFirstFullest(bins, i, k)
        invariant maximum == if i > 0 then bins[k] else 0
      {
        if maximum < bins[i] {
          maximum, k := bins[i], i;
        }
      }
      r := (k as real + 0.5) * width;
      assert r == k as real * width + width / 2.0;
      assert IsFirstFullest(bins, n, k);
    }

    method Reset()
      requires Covered(Form())
      modifies this`bins, this`offered
      ensures Valid() && offered == []
    {
      bins := Empty(n);
      offered := [];
    }

    /** Bounds and width stay: see ResizeIsSafeIff. */
    method ResetCount(n: nat)
      modifies this`n, this`bins, this`offered
      ensures Form() == old(Form()).(n := n) && bins == Empty(n) && offered == []
      ensures Valid() <==> Covered(Form())
    {
      this.n := n;
      bins := Empty(n);
      offered := [];
    }

    method ResetWidth(n: nat, width: real)
      modifies this
      ensures Valid() && offered == [] && Form() == Shape(0.0, width * n as real, width, n)
      ensures Exact(Form())
    {
      this.n, lower, upper, this.width := n, 0.0, width * n as real, width;
      bins, offered := Empty(n), [];
      WidthCovers(Form());
    }

    method ResetBounds(n: nat, lower: real, upper: real, overZero: real -> real)
      modifies this
      ensures Form() == Shape(lower, upper, BinWidth(n, lower, upper, overZero), n)
      ensures bins == Empty(n) && offered == [] && (n > 0 ==> Exact(Form()))
      ensures Valid() <==> n > 0 || upper <= lower
    {
      this.n, this.lower, this.upper := n, lower, upper;
      width := BinWidth(n, lower, upper, overZero);
      bins, offered := Empty(n), [];
      if n > 0 { WidthCovers(Form()); } else { NoBinsCover(Form()); }
    }
  }

  lemma NoBinsCover(h: Shape)
    requires h.n == 0
    ensures Covered(h) <==> h.upper <= h.lower
  {
    assert Edge(h, 0) == h.lower;
  }

  /** The bounds and the width of every constructor fit together. */
  lemma WidthCovers(h: Shape)
    requires (h.lower == 0.0 && h.upper == h.width * h.n as real) ||
             (h.n > 0 && h.width == (h.upper - h.lower) / h.n as real)
    ensures Exact(h) && Covered(h)
  {
    var k := h.n as real;
    assert k * h.width == h.upper - h.lower;
    if h.lower < h.upper && h.width <= 0.0 {
      NotPositive(k, h.width);
      assert false;
    }
  }

  lemma NotPositive(k: real, w: real)
    requires k >= 0.0 && w <= 0.0
    ensures k * w <= 0.0
  {
  }

  lemma NextEdge(h: Shape, i: int)
    ensures Edge(h, i) + h.width == Edge(h, i + 1)
  {
    assert (i + 1) as real * h.width == i as real * h.width + h.width;
  }
}
