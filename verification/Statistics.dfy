/** What the statistics of a data series mean, as functions of the values in its window. Numbers are
    real; the functions of the mathematics library and division by zero stay unspecified. */
module Statistics {
  import opened Reals
  import opened Wrappers

  datatype Mathematics = Mathematics(sqrt: real -> real, power: (real, real) -> real, overZero: real -> real)

  datatype Kind = Arithmetic | Geometric | Harmonic

  function Divide(maths: Mathematics, x: real, y: real): real {
    if y == 0.0 then maths.overZero(x) else x / y
  }

  function Count(s: seq<real>): real {
    |s| as real
  }

  function InverseSum(maths: Mathematics, s: seq<real>): real {
    if s == [] then 0.0 else InverseSum(maths, Front(s)) + Divide(maths, 1.0, Back(s))
  }

  function ProductFrom(start: real, s: seq<real>): real {
    if s == [] then start else ProductFrom(start, Front(s)) * Back(s)
  }

  function SquareSum(s: seq<real>): real {
    if s == [] then 0.0 else SquareSum(Front(s)) + Square(Back(s))
  }

  function DeviationSum(s: seq<real>, m: real): real {
    if s == [] then 0.0 else DeviationSum(Front(s), m) + Square(Back(s) - m)
  }

  /** Conversion to an integer type drops the fraction. */
  function Truncate(x: real): int {
    if x >= 0.0 then x.Floor else -((-x).Floor)
  }

  /** The sum of squares as `private_rms` forms it: the running total is an integer. */
  function TruncatedSquareSum(s: seq<real>): int {
    if s == [] then 0 else Truncate(TruncatedSquareSum(Front(s)) as real + Square(Back(s)))
  }

  function MeanOf(maths: Mathematics, kind: Kind, s: seq<real>): real {
    if s == [] then 0.0
    else match kind
      case Geometric => maths.power(ProductFrom(0.0, s), 1.0 / Count(s))
      case Harmonic => Divide(maths, Count(s), InverseSum(maths, s))
      case Arithmetic => Sum(s) / Count(s)
  }

  /** What the variance divides by. */
  function Divisor(sample: bool, s: seq<real>): real {
    if sample then Count(s) - 1.0 else Count(s)
  }

  /** The variance once the mean is known. */
  function VarianceAround(maths: Mathematics, sample: bool, s: seq<real>, m: real): real {
    Divide(maths, 1.0, Divisor(sample, s)) * DeviationSum(s, m)
  }

  function VarianceOf(maths: Mathematics, sample: bool, s: seq<real>): real {
    if s == [] then 0.0 else VarianceAround(maths, sample, s, MeanOf(maths, Arithmetic, s))
  }

  function DeviationOf(maths: Mathematics, sample: bool, s: seq<real>): real {
    if s == [] then 0.0 else maths.sqrt(VarianceOf(maths, sample, s))
  }

  function RmsOf(maths: Mathematics, s: seq<real>): real {
    if s == [] then 0.0 else maths.sqrt(TruncatedSquareSum(s) as real / Count(s))
  }

  /** The last k values, all of them when there are fewer. */
  function Last(s: seq<real>, k: nat): seq<real> {
    if |s| <= k then s else s[|s| - k..]
  }

  /** The sum of n squared distances from m, given the sum of the squares and the sum. */
  function Expanded(squares: real, m: real, sum: real, n: real): real {
    squares - 2.0 * m * sum + n * Square(m)
  }

  /** The sum of n squares less n times the square of m. */
  function Excess(squares: real, m: real, n: real): real {
    squares - n * Square(m)
  }

  lemma {:induction false} DeviationFormula(s: seq<real>, m: real)
    ensures DeviationSum(s, m) == Expanded(SquareSum(s), m, Sum(s), Count(s))
  {
    if s != [] {
      DeviationFormula(Front(s), m);
      ExpandOne(SquareSum(Front(s)), SquareSum(s), m, Sum(Front(s)), Sum(s), Count(Front(s)), Count(s),
                Back(s), DeviationSum(Front(s), m), DeviationSum(s, m));
    }
  }

  lemma ExpandOne(squares: real, squares': real, m: real, sum: real, sum': real, n: real, n': real,
                  x: real, dev: real, dev': real)
    requires dev == Expanded(squares, m, sum, n) && dev' == dev + Square(x - m)
    requires squares' == squares + Square(x) && sum' == sum + x && n' == n + 1.0
    ensures dev' == Expanded(squares', m, sum', n')
  {
    assert Square(x - m) == x * x - 2.0 * m * x + m * m;
    assert 2.0 * m * sum' == 2.0 * m * sum + 2.0 * m * x;
    assert n' * (m * m) == n * (m * m) + m * m;
  }

  /** The deviations from the arithmetic mean, without going through the values twice. */
  lemma DeviationFromMean(maths: Mathematics, s: seq<real>)
    requires s != []
    ensures var m := MeanOf(maths, Arithmetic, s);
            DeviationSum(s, m) == Excess(SquareSum(s), m, Count(s))
  {
    var m := MeanOf(maths, Arithmetic, s);
    DeviationFormula(s, m);
    Collect(DeviationSum(s, m), SquareSum(s), m, Count(s), Sum(s));
  }

  lemma Collect(dev: real, squares: real, m: real, n: real, sum: real)
    requires n != 0.0 && m == sum / n && dev == Expanded(squares, m, sum, n)
    ensures dev == Excess(squares, m, n)
  {
    assert sum == n * m;
    assert m * sum == n * (m * m);
  }

  lemma CancelDivision(variance: real, x: real, d: real)
    requires d != 0.0 && variance == (1.0 / d) * x
    ensures variance * d == x
  {
    var y := 1.0 / d;
    assert y * d == 1.0;
    assert y * x * d == (y * d) * x;
  }

  lemma TimesDivisor(maths: Mathematics, sample: bool, s: seq<real>, m: real)
    requires Divisor(sample, s) != 0.0
    ensures VarianceAround(maths, sample, s, m) * Divisor(sample, s) == DeviationSum(s, m)
  {
    CancelDivision(VarianceAround(maths, sample, s, m), DeviationSum(s, m), Divisor(sample, s));
  }

  /** The variance as the mean of the squares less the square of the mean: with the whole population
      as divisor, and one less for a sample of at least two. */
  lemma VarianceIdentity(maths: Mathematics, sample: bool, s: seq<real>)
    requires s != [] && (sample ==> |s| > 1)
    ensures var m := MeanOf(maths, Arithmetic, s);
            VarianceOf(maths, sample, s) * Divisor(sample, s) == Excess(SquareSum(s), m, Count(s))
  {
    var m := MeanOf(maths, Arithmetic, s);
    DeviationFromMean(maths, s);
    TimesDivisor(maths, sample, s, m);
  }

  /** A sample divides by one less than the number of values, a population by that number. */
  lemma SampleAndPopulation(maths: Mathematics, s: seq<real>)
    requires |s| > 1
    ensures VarianceOf(maths, true, s) * (|s| - 1) as real == VarianceOf(maths, false, s) * |s| as real
    ensures VarianceOf(maths, false, s) * |s| as real == DeviationSum(s, Sum(s) / |s| as real)
  {
    var m := MeanOf(maths, Arithmetic, s);
    TimesDivisor(maths, true, s, m);
    TimesDivisor(maths, false, s, m);
    assert (|s| - 1) as real == Count(s) - 1.0;
  }

  /** Without values every statistic is zero. */
  lemma NothingGivesZero(maths: Mathematics, kind: Kind, sample: bool)
    ensures MeanOf(maths, kind, []) == 0.0 && VarianceOf(maths, sample, []) == 0.0
    ensures DeviationOf(maths, sample, []) == 0.0 && RmsOf(maths, []) == 0.0 && MedianOf([]) == Some(0.0)
  {
  }

  lemma {:induction false} DeviationSign(s: seq<real>, m: real)
    ensures DeviationSum(s, m) >= 0.0
    ensures DeviationSum(s, m) == 0.0 <==> forall k :: 0 <= k < |s| ==> s[k] == m
  {
    if s != [] {
      var front, d := Front(s), Back(s) - m;
      DeviationSign(front, m);
      SquareSign(d);
      assert forall k :: 0 <= k < |front| ==> front[k] == s[k];
    }
  }

  lemma {:induction false} ConstantSum(s: seq<real>, c: real)
    requires forall k :: 0 <= k < |s| ==> s[k] == c
    ensures Sum(s) == Count(s) * c
  {
    if s != [] {
      ConstantSum(Front(s), c);
      assert Count(s) * c == Count(Front(s)) * c + c;
    }
  }

  /** The argument of the square root in `private_stddev` is never negative, and it is zero exactly
      when all values are the same. */
  lemma VarianceSign(maths: Mathematics, sample: bool, s: seq<real>)
    requires s != [] && (sample ==> |s| > 1)
    ensures VarianceOf(maths, sample, s) >= 0.0
    ensures VarianceOf(maths, sample, s) == 0.0 <==> forall k :: 0 <= k < |s| ==> s[k] == s[0]
  {
    var m := MeanOf(maths, Arithmetic, s);
    var dev, d := DeviationSum(s, m), Divisor(sample, s);
    DeviationSign(s, m);
    ProductSign(1.0 / d, dev);
    if forall k :: 0 <= k < |s| ==> s[k] == s[0] {
      ConstantSum(s, s[0]);
      CancelFactor(Sum(s), Count(s), s[0]);
    }
  }

  lemma CancelFactor(sum: real, n: real, c: real)
    requires n != 0.0 && sum == n * c
    ensures sum / n == c
  {
    assert (sum / n - c) * n == 0.0;
  }

  /** The standard deviation is the root of the variance: for a square root that is one, its square
      times the divisor is the sum of squares less n times the squared mean. */
  lemma DeviationIsRoot(maths: Mathematics, sample: bool, s: seq<real>)
    requires s != [] && (sample ==> |s| > 1)
    requires forall x :: x >= 0.0 ==> Square(maths.sqrt(x)) == x
    ensures Square(DeviationOf(maths, sample, s)) * Divisor(sample, s) ==
            Excess(SquareSum(s), MeanOf(maths, Arithmetic, s), Count(s))
  {
    VarianceSign(maths, sample, s);
    VarianceIdentity(maths, sample, s);
    RootOf(maths, VarianceOf(maths, sample, s));
  }

  lemma RootOf(maths: Mathematics, x: real)
    requires x >= 0.0 && forall y :: y >= 0.0 ==> Square(maths.sqrt(y)) == y
    ensures Square(maths.sqrt(x)) == x
  {
  }

  /** The harmonic mean is the value whose inverse is the mean of the inverses. */
  lemma HarmonicMeaning(maths: Mathematics, s: seq<real>)
    requires s != [] && InverseSum(maths, s) != 0.0
    ensures MeanOf(maths, Harmonic, s) * InverseSum(maths, s) == Count(s)
  {
  }

  /** The step from a product of two sums to one of sums with one more value. */
  lemma TwiceTheRoot(a: real, b: real, n: real)
    requires a >= 0.0 && b >= 0.0 && n >= 0.0 && a * b >= n * n
    ensures a + b >= 2.0 * n
  {
    SquareSign(a - b);
    assert Square(a - b) == (a + b) * (a + b) - 4.0 * (a * b);
    var d := 2.0 * n - (a + b);
    assert d * (a + b) + d * (2.0 * n) == 4.0 * (n * n) - (a + b) * (a + b);
    if d > 0.0 {
      ProductSign(d, a + b);
      ProductSign(d, 2.0 * n);
    }
  }

  lemma OneMoreValue(sum: real, inverses: real, n: real, x: real)
    requires sum >= 0.0 && inverses >= 0.0 && n >= 0.0 && x > 0.0 && sum * inverses >= n * n
    ensures (sum + x) * (inverses + 1.0 / x) >= (n + 1.0) * (n + 1.0)
  {
    var y := 1.0 / x;
    assert x * y == 1.0;
    ProductSign(y, sum);
    ProductSign(x, inverses);
    assert (y * sum) * (x * inverses) == (x * y) * (sum * inverses);
    TwiceTheRoot(y * sum, x * inverses, n);
    assert (sum + x) * (inverses + y) == sum * inverses + y * sum + x * inverses + x * y;
    assert (n + 1.0) * (n + 1.0) == n * n + 2.0 * n + 1.0;
  }

  predicate Positive(s: seq<real>) {
    forall k :: 0 <= k < |s| ==> s[k] > 0.0
  }

  lemma {:induction false} SumTimesInverses(maths: Mathematics, s: seq<real>)
    requires Positive(s)
    ensures Sum(s) >= 0.0 && InverseSum(maths, s) >= 0.0
    ensures s != [] ==> InverseSum(maths, s) > 0.0
    ensures Sum(s) * InverseSum(maths, s) >= Count(s) * Count(s)
  {
    if s != [] {
      SumTimesInverses(maths, Front(s));
      OneMoreValue(Sum(Front(s)), InverseSum(maths, Front(s)), Count(Front(s)), Back(s));
    }
  }

  /** For positive values the harmonic mean is at most the arithmetic mean. */
  lemma HarmonicAtMostArithmetic(maths: Mathematics, s: seq<real>)
    requires s != [] && Positive(s)
    ensures MeanOf(maths, Harmonic, s) <= MeanOf(maths, Arithmetic, s)
  {
    SumTimesInverses(maths, s);
    HarmonicMeaning(maths, s);
    CompareMeans(MeanOf(maths, Harmonic, s), MeanOf(maths, Arithmetic, s), Sum(s), InverseSum(maths, s), Count(s));
  }

  lemma CompareMeans(harmonic: real, arithmetic: real, sum: real, inverses: real, n: real)
    requires n > 0.0 && inverses > 0.0 && sum * inverses >= n * n
    requires harmonic * inverses == n && arithmetic == sum / n
    ensures harmonic <= arithmetic
  {
    assert arithmetic * n == sum;
    assert harmonic * inverses * n == n * n;
    assert arithmetic * inverses * n == sum * inverses;
    ScaleOrder(harmonic * inverses, arithmetic * inverses, n);
    ScaleOrder(harmonic, arithmetic, inverses);
  }

  lemma {:induction false} ZeroProduct(start: real, s: seq<real>)
    ensures ProductFrom(start, s) == 0.0 <==> start == 0.0 || 0.0 in s
  {
    if s != [] {
      ZeroProduct(start, Front(s));
      assert s == Front(s) + [Back(s)];
    }
  }

  /** The running product starts at zero, so it is the product of the values exactly when one of
      them is zero; the geometric mean is otherwise the root of zero whatever the values are. */
  lemma GeometricProductIff(s: seq<real>)
    ensures ProductFrom(0.0, s) == 0.0
    ensures ProductFrom(0.0, s) == ProductFrom(1.0, s) <==> 0.0 in s
  {
    ZeroProduct(0.0, s);
    ZeroProduct(1.0, s);
  }

  /** So the geometric mean tells nothing of the values but how many there are. */
  lemma GeometricMeanIsRootOfZero(maths: Mathematics, s: seq<real>)
    requires s != []
    ensures MeanOf(maths, Geometric, s) == maths.power(0.0, 1.0 / |s| as real)
  {
    GeometricProductIff(s);
  }

  /** The smallest case: the product of 2 alone is not zero. */
  lemma GeometricProductOfTwo()
    ensures ProductFrom(0.0, [2.0]) == 0.0 && ProductFrom(1.0, [2.0]) == 2.0
  {
    assert Front([2.0]) == [];
  }

  // ---------------------------------------------------------------- the median

  predicate Ascends(s: seq<real>) {
    forall i, j :: 0 <= i < j < |s| ==> s[i] <= s[j]
  }

  function Inserted(s: seq<real>, x: real): seq<real> {
    if s == [] || s[0] >= x then [x] + s else [s[0]] + Inserted(s[1..], x)
  }

  /** The values in ascending order. */
  function Sorted(s: seq<real>): seq<real> {
    if s == [] then [] else Inserted(Sorted(s[1..]), s[0])
  }

  lemma Prepended(x: real, s: seq<real>)
    ensures multiset([x] + s) == multiset{x} + multiset(s)
  {
  }

  lemma RestAscends(s: seq<real>)
    requires s != [] && Ascends(s)
    ensures Ascends(s[1..]) && forall y :: y in multiset(s[1..]) ==> s[0] <= y
  {
  }

  lemma PutFirst(x: real, s: seq<real>)
    requires Ascends(s) && forall y :: y in multiset(s) ==> x <= y
    ensures Ascends([x] + s)
  {
    forall j | 0 <= j < |s| ensures x <= s[j] { assert s[j] in multiset(s); }
  }

  lemma {:induction false} InsertedKeeps(s: seq<real>, x: real)
    requires Ascends(s)
    ensures Ascends(Inserted(s, x)) && multiset(Inserted(s, x)) == multiset{x} + multiset(s)
  {
    if s == [] || s[0] >= x {
      if s != [] { FirstNotAboveAny(s, x); }
      PutFirst(x, s);
      Prepended(x, s);
    } else {
      RestAscends(s);
      InsertedKeeps(s[1..], x);
      PutFirst(s[0], Inserted(s[1..], x));
      Prepended(s[0], Inserted(s[1..], x));
      WithoutFirst(s);
    }
  }

  lemma FirstNotAboveAny(s: seq<real>, x: real)
    requires s != [] && Ascends(s) && x <= s[0]
    ensures forall y :: y in multiset(s) ==> x <= y
  {
  }

  lemma {:induction false} SortedKeeps(s: seq<real>)
    ensures Ascends(Sorted(s)) && multiset(Sorted(s)) == multiset(s) && |Sorted(s)| == |s|
  {
    if s != [] {
      SortedKeeps(s[1..]);
      InsertedKeeps(Sorted(s[1..]), s[0]);
      WithoutFirst(s);
    }
    SameSize(Sorted(s), s);
  }

  lemma SameSize(s: seq<real>, t: seq<real>)
    requires multiset(s) == multiset(t)
    ensures |s| == |t|
  {
    assert |multiset(s)| == |s| && |multiset(t)| == |t|;
  }

  /** What `private_median` gives; nothing when it looks behind the end of the sorted values. */
  function MedianOf(s: seq<real>): Option<real> {
    var (sorted, half) := (Sorted(s), |s| / 2);
    if s == [] then Some(0.0)
    else if |s| % 2 == 1 then ElementAt(sorted, half)
    else if ElementAt(sorted, half) == None || ElementAt(sorted, half + 1) == None then None
    else Some((sorted[half] + sorted[half + 1]) / 2.0)
  }

  /** `at`, which throws for a number that is out of range. */
  function ElementAt(s: seq<real>, i: nat): Option<real> {
    if i < |s| then Some(s[i]) else None
  }

  /** A middle of the values: as many of them lie before it as behind it in some ascending order. */
  ghost predicate IsMiddle(s: seq<real>, m: real) {
    exists t :: && Ascends(t) && multiset(t) == multiset(s) && |t| == |s| > 0
                && m == (t[(|s| - 1) / 2] + t[|s| / 2]) / 2.0
  }

  lemma FirstNotAbove(s: seq<real>, t: seq<real>)
    requires s != [] && Ascends(s) && t != [] && t[0] in multiset(s)
    ensures s[0] <= t[0]
  {
  }

  lemma WithoutFirst(s: seq<real>)
    requires s != []
    ensures multiset(s) == multiset{s[0]} + multiset(s[1..])
  {
    assert s == [s[0]] + s[1..];
  }

  /** There is only one ascending order. */
  lemma {:induction false} OneOrder(s: seq<real>, t: seq<real>)
    requires Ascends(s) && Ascends(t) && multiset(s) == multiset(t) && |s| == |t|
    ensures s == t
  {
    if s != [] {
      assert s[0] in multiset(t) && t[0] in multiset(s);
      FirstNotAbove(s, t);
      FirstNotAbove(t, s);
      WithoutFirst(s);
      WithoutFirst(t);
      RestsMatch(multiset(s[1..]), multiset(t[1..]), s[0]);
      OneOrder(s[1..], t[1..]);
      assert s == [s[0]] + s[1..] && t == [t[0]] + t[1..];
    }
  }

  lemma RestsMatch(a: multiset<real>, b: multiset<real>, x: real)
    requires multiset{x} + a == multiset{x} + b
    ensures a == b
  {
    assert a == (multiset{x} + a) - multiset{x};
    assert b == (multiset{x} + b) - multiset{x};
  }

  lemma MiddleIs(s: seq<real>, m: real)
    requires s != []
    ensures |Sorted(s)| == |s|
    ensures IsMiddle(s, m) <==> m == (Sorted(s)[(|s| - 1) / 2] + Sorted(s)[|s| / 2]) / 2.0
  {
    SortedKeeps(s);
    forall t | Ascends(t) && multiset(t) == multiset(s) && |t| == |s| ensures t == Sorted(s) {
      OneOrder(t, Sorted(s));
    }
  }

  /** The average of two neighbours, and of the next two. */
  lemma PastTheMiddle(low: real, middle: real, high: real)
    requires low <= middle <= high
    ensures (low + middle) / 2.0 <= (middle + high) / 2.0
    ensures (low + middle) / 2.0 == (middle + high) / 2.0 <==> low == high
  {
  }

  lemma AscendsAt(t: seq<real>, i: nat)
    requires Ascends(t) && i + 2 < |t|
    ensures t[i] <= t[i + 1] <= t[i + 2]
  {
  }

  lemma EvenValues(s: seq<real>, m: real, half: nat)
    requires |s| == 2 * half && half > 1
    ensures |Sorted(s)| == |s| && Ascends(Sorted(s))
    ensures MedianOf(s) == Some((Sorted(s)[half] + Sorted(s)[half + 1]) / 2.0)
    ensures IsMiddle(s, m) <==> m == (Sorted(s)[half - 1] + Sorted(s)[half]) / 2.0
  {
    SortedKeeps(s);
    MiddleIs(s, m);
    assert (|s| - 1) / 2 == half - 1 && |s| / 2 == half;
  }

  /** What `median` gives for an even number of values, in terms of the sorted ones. */
  lemma MedianOfEven(s: seq<real>, m: real, half: nat)
    requires |s| == 2 * half && half > 1 && IsMiddle(s, m)
    ensures |Sorted(s)| == |s| && MedianOf(s).Some? && m <= MedianOf(s).value
    ensures m == MedianOf(s).value <==> Sorted(s)[half - 1] == Sorted(s)[half + 1]
  {
    EvenValues(s, m, half);
    AscendsAt(Sorted(s), half - 1);
    PastTheMiddle(Sorted(s)[half - 1], Sorted(s)[half], Sorted(s)[half + 1]);
  }

  lemma MedianOfOdd(s: seq<real>, m: real)
    requires |s| % 2 == 1
    ensures MedianOf(s).Some? && (IsMiddle(s, m) <==> m == MedianOf(s).value)
  {
    SortedKeeps(s);
    MiddleIs(s, m);
    assert (|s| - 1) / 2 == |s| / 2;
  }

  /** `median` looks past the middle for an even number of values. It throws for exactly two values;
      otherwise it is never below the median m, and it is m exactly for an odd number of values or
      when the two values before and behind the upper middle are the same. */
  lemma MedianIff(s: seq<real>, m: real)
    requires IsMiddle(s, m)
    ensures |Sorted(s)| == |s| > 0 && (MedianOf(s) == None <==> |s| == 2)
    ensures |s| != 2 ==> m <= MedianOf(s).value
    ensures |s| != 2 ==> (m == MedianOf(s).value <==>
                            |s| % 2 == 1 || Sorted(s)[|s| / 2 - 1] == Sorted(s)[|s| / 2 + 1])
  {
    SortedKeeps(s);
    if |s| % 2 == 1 {
      MedianOfOdd(s, m);
    } else if |s| != 2 {
      MedianOfEven(s, m, |s| / 2);
    }
  }

  // ---------------------------------------------------------------- the root of the mean square

  predicate HasWholeSquare(x: real) {
    Square(x).Floor as real == Square(x)
  }

  predicate WholeSquares(s: seq<real>) {
    forall k :: 0 <= k < |s| ==> HasWholeSquare(s[k])
  }

  lemma {:induction false} TruncationLoses(s: seq<real>)
    ensures 0 <= TruncatedSquareSum(s)
    ensures SquareSum(s) - Count(s) <= TruncatedSquareSum(s) as real <= SquareSum(s)
    ensures TruncatedSquareSum(s) as real == SquareSum(s) <==> WholeSquares(s)
  {
    if s != [] {
      var front, square := Front(s), Square(Back(s));
      TruncationLoses(front);
      SquareSign(Back(s));
      FloorOfSum(TruncatedSquareSum(front), square);
      assert s == front + [Back(s)];
      assert WholeSquares(s) <==> WholeSquares(front) && HasWholeSquare(Back(s));
    }
  }

  /** Truncation goes towards zero. */
  lemma TruncateMeaning(x: real)
    ensures x >= 0.0 ==> Truncate(x) >= 0 && Truncate(x) as real <= x < (Truncate(x) + 1) as real
    ensures x < 0.0 ==> Truncate(x) <= 0 && (Truncate(x) - 1) as real < x <= Truncate(x) as real
  {
  }

  lemma FloorOfSum(n: int, x: real)
    requires x >= 0.0 && n >= 0
    ensures Truncate(n as real + x) == n + x.Floor
    ensures x - 1.0 <= x.Floor as real <= x
  {
  }

  /** The total under the root of `rms` is an integer at every step. It is at most one per value too
      small, and right exactly when every square is an integer. */
  lemma RmsIsExactIff(maths: Mathematics, s: seq<real>)
    requires s != []
    ensures var used := TruncatedSquareSum(s) as real / Count(s);
            var meant := SquareSum(s) / Count(s);
            && RmsOf(maths, s) == maths.sqrt(used)
            && 0.0 <= used && meant - 1.0 <= used <= meant
            && (used == meant <==> WholeSquares(s))
  {
    TruncationLoses(s);
    QuotientBounds(SquareSum(s), TruncatedSquareSum(s) as real, Count(s));
  }

  /** The square of one half is lost altogether. */
  lemma RmsOfOneHalf(maths: Mathematics)
    ensures SquareSum([0.5]) == 0.25 && RmsOf(maths, [0.5]) == maths.sqrt(0.0)
  {
    assert Front([0.5]) == [];
    assert Square(0.5) == 0.25;
  }

  lemma QuotientBounds(x: real, y: real, n: real)
    requires n > 0.0 && x - n <= y <= x && 0.0 <= y
    ensures x / n - 1.0 <= y / n <= x / n && 0.0 <= y / n
    ensures y / n == x / n <==> x == y
  {
    var p, q := x / n, y / n;
    assert p * n == x && q * n == y;
    assert (p - 1.0) * n == x - n;
    ScaleOrder(p - 1.0, q, n);
    ScaleOrder(q, p, n);
    ScaleOrder(0.0, q, n);
    ScaleOrder(p, q, n);
  }

  lemma LastStep(s: seq<real>, k: nat, x: real)
    ensures var grown := Last(s, k) + [x];
            Last(s + [x], k) == if |grown| > k then grown[1..] else grown
  {
  }
}
