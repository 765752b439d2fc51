/** The geohash of a point: bisection of longitude and latitude in turn, five bits a character.

    The bisection points are dyadic fractions of 90 and 180 at most thirty levels deep, which
    doubles represent exactly, so real numbers are a faithful model of them. */
module Geohash {

  const ALPHABET: string := "0123456789bcdefghjkmnpqrstuvwxyz"

  const MAX_PRECISION: nat := 12

  function Min(a: int, b: int): int {
    if a < b then a else b
  }

  function Pow2(k: nat): (p: nat)
    ensures p > 0
  {
    if k == 0 then 1 else 2 * Pow2(k - 1)
  }

  // ---------------------------------------------------------------- direct quantisation

  /** An axis runs from `low` over `span` degrees. */
  datatype Axis = Axis(low: real, span: real)

  const LONGITUDE: Axis := Axis(-180.0, 360.0)
  const LATITUDE: Axis := Axis(-90.0, 180.0)

  predicate OnAxis(axis: Axis, v: real) {
    axis.low <= v <= axis.low + axis.span
  }

  /** Where v lies on the axis, counted in cells of which there are 2^k. */
  function Scaled(axis: Axis, v: real, k: nat): real
    requires axis.span > 0.0
  {
    if k == 0 then (v - axis.low) / axis.span else 2.0 * Scaled(axis, v, k - 1)
  }

  /** The number of the cell of v when the axis is cut into 2^k equal cells; the upper end of the
      axis belongs to the last cell. */
  function Quantised(axis: Axis, v: real, k: nat): int
    requires axis.span > 0.0
  {
    Min(Scaled(axis, v, k).Floor, Pow2(k) - 1)
  }

  function ShiftRight(q: int, n: nat): int
    decreases n
  {
    if n == 0 then q else ShiftRight(q / 2, n - 1)
  }

  /** Bit number i of k bits of q, the most significant first. */
  function BitOf(q: int, k: nat, i: nat): int
    requires i < k
  {
    ShiftRight(q, k - 1 - i) % 2
  }

  /** Bit j of the interleaving of `even`, with k bits, and `odd`, with m bits. */
  function InterleavedBit(even: int, k: nat, odd: int, m: nat, j: nat): int
    requires if j % 2 == 0 then j / 2 < k else j / 2 < m
  {
    if j % 2 == 0 then BitOf(even, k, j / 2) else BitOf(odd, m, j / 2)
  }

  predicate InRange(lat: real, lon: real) {
    OnAxis(LONGITUDE, lon) && OnAxis(LATITUDE, lat)
  }

  /** How many of 5p bits go to the longitude, and to the latitude. */
  function LonBits(p: nat): nat { (5 * p + 1) / 2 }
  function LatBits(p: nat): nat { 5 * p / 2 }

  function HashBit(lat: real, lon: real, p: nat, j: nat): int
    requires j < 5 * p
  {
    InterleavedBit(Quantised(LONGITUDE, lon, LonBits(p)), LonBits(p),
                   Quantised(LATITUDE, lat, LatBits(p)), LatBits(p), j)
  }

  /** The value of five bits, the first one the most significant. */
  function Digit(lat: real, lon: real, p: nat, i: nat): int
    requires i < p
  {
    16 * HashBit(lat, lon, p, 5 * i) + 8 * HashBit(lat, lon, p, 5 * i + 1) + 4 * HashBit(lat, lon, p, 5 * i + 2)
    + 2 * HashBit(lat, lon, p, 5 * i + 3) + HashBit(lat, lon, p, 5 * i + 4)
  }

  lemma DigitInAlphabet(lat: real, lon: real, p: nat, i: nat)
    requires i < p
    ensures 0 <= Digit(lat, lon, p, i) < |ALPHABET|
  {
  }

  // ---------------------------------------------------------------- one bisection

  lemma QuotientTimes(x: real, s: real, q: real)
    requires s != 0.0
    ensures q == x / s <==> q * s == x
  {
    if q * s == x { assert (q - x / s) * s == 0.0; }
  }

  lemma Doubling(x: real, p: real, double: real, s: real)
    requires s > 0.0 && double == 2.0 * p
    ensures x * double / s == 2.0 * (x * p / s)
  {
    QuotientTimes(x * p, s, x * p / s);
    QuotientTimes(x * double, s, 2.0 * (x * p / s));
  }

  /** The position as a closed formula. */
  lemma {:induction false} ScaledFormula(axis: Axis, v: real, k: nat)
    requires axis.span > 0.0
    ensures Scaled(axis, v, k) == (v - axis.low) * Pow2(k) as real / axis.span
  {
    if k > 0 {
      ScaledFormula(axis, v, k - 1);
      Doubling(v - axis.low, Pow2(k - 1) as real, Pow2(k) as real, axis.span);
    }
  }

  lemma QuotientMonotone(a: real, b: real, s: real)
    requires s > 0.0
    ensures a / s < b / s <==> a < b
    ensures (b - a) / s == b / s - a / s
  {
    QuotientTimes(a, s, a / s);
    QuotientTimes(b, s, b / s);
    QuotientTimes(b - a, s, b / s - a / s);
    if a < b { assert (b / s - a / s) * s > 0.0; } else { assert (a - b) / s * s >= 0.0; }
  }

  /** Equal distances on the axis are equal distances counted in cells. */
  lemma {:induction false} ScaledIsAffine(axis: Axis, a: real, b: real, k: nat)
    requires axis.span > 0.0
    ensures Scaled(axis, a, k) < Scaled(axis, b, k) <==> a < b
    ensures Scaled(axis, (a + b) / 2.0, k) == (Scaled(axis, a, k) + Scaled(axis, b, k)) / 2.0
  {
    if k == 0 {
      var (x, y) := (a - axis.low, b - axis.low);
      QuotientMonotone(x, y, axis.span);
      QuotientTimes(x, axis.span, x / axis.span);
      QuotientTimes(y, axis.span, y / axis.span);
      QuotientTimes((x + y) / 2.0, axis.span, (x / axis.span + y / axis.span) / 2.0);
      assert (a + b) / 2.0 - axis.low == (x + y) / 2.0;
    } else {
      ScaledIsAffine(axis, a, b, k - 1);
    }
  }

  /** The ends of the axis, counted in cells. */
  lemma {:induction false} ScaledEnds(axis: Axis, k: nat)
    requires axis.span > 0.0
    ensures Scaled(axis, axis.low, k) == 0.0
    ensures Scaled(axis, axis.low + axis.span, k) == Pow2(k) as real
  {
    if k > 0 { ScaledEnds(axis, k - 1); }
  }

  /** The interval between two neighbouring boundaries of 2^k equal cells: number c. */
  predicate IsCell(axis: Axis, k: nat, c: int, min: real, max: real)
    requires axis.span > 0.0
  {
    Scaled(axis, min, k) == c as real && Scaled(axis, max, k) == (c + 1) as real
  }

  lemma WholeAxis(axis: Axis, v: real)
    requires axis.span > 0.0 && OnAxis(axis, v)
    ensures IsCell(axis, 0, 0, axis.low, axis.low + axis.span) && Quantised(axis, v, 0) == 0
  {
    ScaledEnds(axis, 0);
    ScaledIsAffine(axis, axis.low, v, 0);
    ScaledIsAffine(axis, v, axis.low + axis.span, 0);
  }

  lemma {:induction false} QuantisedInRange(axis: Axis, v: real, k: nat)
    requires axis.span > 0.0 && OnAxis(axis, v)
    ensures 0 <= Quantised(axis, v, k) < Pow2(k)
    ensures Scaled(axis, v, k) < Pow2(k) as real || v == axis.low + axis.span
  {
    ScaledEnds(axis, k);
    ScaledIsAffine(axis, v, axis.low, k);
    ScaledIsAffine(axis, v, axis.low + axis.span, k);
  }

  /** Comparing v with the middle of its cell gives the next bit of the cell number, and the half
      that is kept is the cell of v at the next level. */
  lemma Bisect(axis: Axis, v: real, k: nat, min: real, max: real)
    requires axis.span > 0.0 && OnAxis(axis, v) && IsCell(axis, k, Quantised(axis, v, k), min, max)
    ensures var mid := (min + max) / 2.0; var next := Quantised(axis, v, k + 1);
      && next == 2 * Quantised(axis, v, k) + (if v >= mid then 1 else 0)
      && next % 2 == (if v >= mid then 1 else 0)
      && (v >= mid ==> IsCell(axis, k + 1, next, mid, max))
      && (v < mid ==> IsCell(axis, k + 1, next, min, mid))
  {
    var mid := (min + max) / 2.0;
    ScaledIsAffine(axis, min, max, k);
    ScaledIsAffine(axis, v, mid, k);
    QuantisedInRange(axis, v, k);
    ScaledEnds(axis, k);
  }

  /** What the cell number means: v lies between the two boundaries of its cell, the lower one
      included; the last cell includes the upper one as well. */
  lemma CellMeaning(axis: Axis, v: real, k: nat, c: int, min: real, max: real)
    requires axis.span > 0.0 && OnAxis(axis, v) && 0 <= c < Pow2(k) && IsCell(axis, k, c, min, max)
    ensures Quantised(axis, v, k) == c <==> min <= v && (v < max || (c == Pow2(k) - 1 && v == max))
  {
    ScaledIsAffine(axis, v, min, k);
    ScaledIsAffine(axis, v, max, k);
    ScaledIsAffine(axis, max, v, k);
    ScaledEnds(axis, k);
    ScaledIsAffine(axis, v, axis.low + axis.span, k);
    ScaledIsAffine(axis, axis.low + axis.span, v, k);
  }

  // ---------------------------------------------------------------- the bits level by level

  lemma HalfOfNext(axis: Axis, v: real, k: nat)
    requires axis.span > 0.0 && OnAxis(axis, v)
    ensures Quantised(axis, v, k + 1) / 2 == Quantised(axis, v, k)
  {
    QuantisedInRange(axis, v, k);
    QuantisedInRange(axis, v, k + 1);
  }

  /** A coarser cell number is a finer one without its last bits. */
  lemma {:induction false} QuantisedPrefix(axis: Axis, v: real, k: nat, m: nat)
    requires axis.span > 0.0 && OnAxis(axis, v) && k <= m
    ensures ShiftRight(Quantised(axis, v, m), m - k) == Quantised(axis, v, k)
    decreases m
  {
    if k < m {
      HalfOfNext(axis, v, m - 1);
      QuantisedPrefix(axis, v, k, m - 1);
    }
  }

  /** Bit j of the point, read off the level at which it is decided. */
  function LevelBit(lat: real, lon: real, j: nat): int {
    if j % 2 == 0 then Quantised(LONGITUDE, lon, j / 2 + 1) % 2 else Quantised(LATITUDE, lat, j / 2 + 1) % 2
  }

  /** The bits of a point do not depend on how many of them are asked for. */
  lemma HashBitIsLevelBit(lat: real, lon: real, p: nat, j: nat)
    requires InRange(lat, lon) && j < 5 * p
    ensures HashBit(lat, lon, p, j) == LevelBit(lat, lon, j)
  {
    if j % 2 == 0 {
      QuantisedPrefix(LONGITUDE, lon, j / 2 + 1, LonBits(p));
    } else {
      QuantisedPrefix(LATITUDE, lat, j / 2 + 1, LatBits(p));
    }
  }

  lemma DigitIsLevelBits(lat: real, lon: real, p: nat, i: nat)
    requires InRange(lat, lon) && i < p
    ensures Digit(lat, lon, p, i) ==
      16 * LevelBit(lat, lon, 5 * i) + 8 * LevelBit(lat, lon, 5 * i + 1) + 4 * LevelBit(lat, lon, 5 * i + 2)
      + 2 * LevelBit(lat, lon, 5 * i + 3) + LevelBit(lat, lon, 5 * i + 4)
  {
    HashBitIsLevelBit(lat, lon, p, 5 * i);
    HashBitIsLevelBit(lat, lon, p, 5 * i + 1);
    HashBitIsLevelBit(lat, lon, p, 5 * i + 2);
    HashBitIsLevelBit(lat, lon, p, 5 * i + 3);
    HashBitIsLevelBit(lat, lon, p, 5 * i + 4);
  }

  // ---------------------------------------------------------------- the hash

  function Character(lat: real, lon: real, p: nat, i: nat): char
    requires i < p
  {
    DigitInAlphabet(lat, lon, p, i);
    ALPHABET[Digit(lat, lon, p, i)]
  }

  /** How many characters a call with this precision returns. */
  function Length(precision: nat): nat {
    if precision < MAX_PRECISION then precision else MAX_PRECISION
  }

  /** The geohash by direct quantisation of both coordinates. */
  function Hash(lat: real, lon: real, precision: nat): string {
    if !InRange(lat, lon) then ""
    else
      var p := Length(precision);
      seq(p, i requires 0 <= i < p => Character(lat, lon, p, i))
  }

  /** The value of the first `bit` bits of character i. */
  ghost function Partial(lat: real, lon: real, i: nat, bit: nat): int {
    if bit == 0 then 0 else 2 * Partial(lat, lon, i, bit - 1) + LevelBit(lat, lon, 5 * i + bit - 1)
  }

  lemma PartialOfFive(lat: real, lon: real, i: nat)
    ensures Partial(lat, lon, i, 5) ==
      16 * LevelBit(lat, lon, 5 * i) + 8 * LevelBit(lat, lon, 5 * i + 1) + 4 * LevelBit(lat, lon, 5 * i + 2)
      + 2 * LevelBit(lat, lon, 5 * i + 3) + LevelBit(lat, lon, 5 * i + 4)
  {
    assert Partial(lat, lon, i, 1) == LevelBit(lat, lon, 5 * i);
    assert Partial(lat, lon, i, 2) == 2 * Partial(lat, lon, i, 1) + LevelBit(lat, lon, 5 * i + 1);
    assert Partial(lat, lon, i, 3) == 2 * Partial(lat, lon, i, 2) + LevelBit(lat, lon, 5 * i + 2);
    assert Partial(lat, lon, i, 4) == 2 * Partial(lat, lon, i, 3) + LevelBit(lat, lon, 5 * i + 3);
  }

  lemma PartialIsDigit(lat: real, lon: real, p: nat, i: nat)
    requires InRange(lat, lon) && i < p
    ensures Partial(lat, lon, i, 5) == Digit(lat, lon, p, i)
  {
    PartialOfFive(lat, lon, i);
    DigitIsLevelBits(lat, lon, p, i);
  }

  lemma {:induction false} PartialBound(lat: real, lon: real, i: nat, bit: nat)
    ensures 0 <= Partial(lat, lon, i, bit) < Pow2(bit)
  {
    if bit > 0 { PartialBound(lat, lon, i, bit - 1); }
  }

  ghost function LevelCharacter(lat: real, lon: real, i: nat): char {
    PartialBound(lat, lon, i, 5);
    assert Pow2(5) == |ALPHABET| by { assert Pow2(3) == 8; }
    ALPHABET[Partial(lat, lon, i, 5)]
  }

  /** The first n characters, each from the levels at which its bits are decided. */
  ghost function LevelHash(lat: real, lon: real, n: nat): (s: string)
    ensures |s| == n
  {
    if n == 0 then "" else LevelHash(lat, lon, n - 1) + [LevelCharacter(lat, lon, n - 1)]
  }

  lemma LevelHashGrows(lat: real, lon: real, n: nat)
    ensures 0 <= Partial(lat, lon, n, 5) < |ALPHABET|
    ensures LevelHash(lat, lon, n + 1) == LevelHash(lat, lon, n) + [ALPHABET[Partial(lat, lon, n, 5)]]
    ensures Partial(lat, lon, n + 1, 0) == 0
  {
    PartialBound(lat, lon, n, 5);
    assert Pow2(5) == |ALPHABET| by { assert Pow2(3) == 8; }
  }

  lemma {:induction false} LevelHashAt(lat: real, lon: real, p: nat, n: nat, i: nat)
    requires InRange(lat, lon) && i < n <= p
    ensures LevelHash(lat, lon, n)[i] == Character(lat, lon, p, i)
  {
    if i < n - 1 { LevelHashAt(lat, lon, p, n - 1, i); } else { PartialIsDigit(lat, lon, p, i); }
  }

  lemma HashIsLevelHash(lat: real, lon: real, precision: nat)
    requires InRange(lat, lon)
    ensures Hash(lat, lon, precision) == LevelHash(lat, lon, Length(precision))
  {
    var p := Length(precision);
    forall i | 0 <= i < p ensures LevelHash(lat, lon, p)[i] == Hash(lat, lon, precision)[i] {
      LevelHashAt(lat, lon, p, p, i);
    }
  }

  /** The bit that is emitted next, and what it makes of the character under way. */
  lemma NextLonBit(lat: real, lon: real, i: nat, bit: nat, k: nat, b: int)
    requires 2 * k == 5 * i + bit && b == Quantised(LONGITUDE, lon, k + 1) % 2
    ensures Partial(lat, lon, i, bit + 1) == 2 * Partial(lat, lon, i, bit) + b
  {
    assert (5 * i + bit) / 2 == k;
  }

  lemma NextLatBit(lat: real, lon: real, i: nat, bit: nat, k: nat, b: int)
    requires 2 * k + 1 == 5 * i + bit && b == Quantised(LATITUDE, lat, k + 1) % 2
    ensures Partial(lat, lon, i, bit + 1) == 2 * Partial(lat, lon, i, bit) + b
  {
    assert (5 * i + bit) / 2 == k;
  }

  /** The bisection of either range: which half is kept, and the bit it stands for. */
  method KeepHalf(axis: Axis, v: real, min: real, max: real, ghost k: nat) returns (lower: real, upper: real, b: int)
    requires axis.span > 0.0 && OnAxis(axis, v) && IsCell(axis, k, Quantised(axis, v, k), min, max)
    ensures IsCell(axis, k + 1, Quantised(axis, v, k + 1), lower, upper)
    ensures b == Quantised(axis, v, k + 1) % 2
  {
    Bisect(axis, v, k, min, max);
    var mid := (min + max) / 2.0;
    if v >= mid {
      lower, upper, b := mid, max, 1;
    } else {
      lower, upper, b := min, mid, 0;
    }
  }

  /** The branch of the loop for an even bit: longitude. */
  method LonBit(ghost lat: real, lon: real, min: real, max: real, ghost i: nat, ghost bit: nat, ghost k: nat, idx: int)
      returns (lower: real, upper: real, next: int)
    requires OnAxis(LONGITUDE, lon) && IsCell(LONGITUDE, k, Quantised(LONGITUDE, lon, k), min, max)
    requires 2 * k == 5 * i + bit && idx == Partial(lat, lon, i, bit)
    ensures IsCell(LONGITUDE, k + 1, Quantised(LONGITUDE, lon, k + 1), lower, upper)
    ensures next == Partial(lat, lon, i, bit + 1)
  {
    var b;
    lower, upper, b := KeepHalf(LONGITUDE, lon, min, max, k);
    next := idx * 2 + b;
    NextLonBit(lat, lon, i, bit, k, b);
  }

  /** The branch of the loop for an odd bit: latitude. */
  method LatBit(lat: real, ghost lon: real, min: real, max: real, ghost i: nat, ghost bit: nat, ghost k: nat, idx: int)
      returns (lower: real, upper: real, next: int)
    requires OnAxis(LATITUDE, lat) && IsCell(LATITUDE, k, Quantised(LATITUDE, lat, k), min, max)
    requires 2 * k + 1 == 5 * i + bit && idx == Partial(lat, lon, i, bit)
    ensures IsCell(LATITUDE, k + 1, Quantised(LATITUDE, lat, k + 1), lower, upper)
    ensures next == Partial(lat, lon, i, bit + 1)
  {
    var b;
    lower, upper, b := KeepHalf(LATITUDE, lat, min, max, k);
    next := idx * 2 + b;
    NextLatBit(lat, lon, i, bit, k, b);
  }

  /** A full group of bits becomes a character. */
  method Flush(ghost lat: real, ghost lon: real, geohash: string, idx: int, bit: nat)
      returns (longer: string, rest: int, left: nat)
    requires bit <= 5 && geohash == LevelHash(lat, lon, |geohash|) && idx == Partial(lat, lon, |geohash|, bit)
    ensures left < 5 && 5 * |longer| + left == 5 * |geohash| + bit
    ensures longer == LevelHash(lat, lon, |longer|) && rest == Partial(lat, lon, |longer|, left)
  {
    longer, rest, left := geohash, idx, bit;
    if bit == 5 {
      LevelHashGrows(lat, lon, |geohash|);
      longer := geohash + [ALPHABET[idx]];
      left := 0;
      rest := 0;
    }
  }

  /** The loop that bisects both ranges in turn, over p characters. */
  method BisectInTurn(lat: real, lon: real, p: nat) returns (geohash: string)
    requires InRange(lat, lon)
    ensures geohash == LevelHash(lat, lon, p)
  {
    var latMin, latMax, lonMin, lonMax := -90.0, 90.0, -180.0, 180.0;
    var idx, bit, evenBit := 0, 0, true;
    geohash := "";
    ghost var lonBits, latBits := 0, 0;
    WholeAxis(LONGITUDE, lon);
    WholeAxis(LATITUDE, lat);
    while |geohash| < p
      invariant 0 <= bit < 5 && 5 * |geohash| + bit <= 5 * p
      invariant lonBits + latBits == 5 * |geohash| + bit
      invariant lonBits == latBits + if evenBit then 0 else 1
      invariant IsCell(LONGITUDE, lonBits, Quantised(LONGITUDE, lon, lonBits), lonMin, lonMax)
      invariant IsCell(LATITUDE, latBits, Quantised(LATITUDE, lat, latBits), latMin, latMax)
      invariant idx == Partial(lat, lon, |geohash|, bit)
      invariant geohash == LevelHash(lat, lon, |geohash|)
      decreases 5 * p - 5 * |geohash| - bit
    {
      if evenBit {
        lonMin, lonMax, idx := LonBit(lat, lon, lonMin, lonMax, |geohash|, bit, lonBits, idx);
        lonBits := lonBits + 1;
      } else {
        latMin, latMax, idx := LatBit(lat, lon, latMin, latMax, |geohash|, bit, latBits, idx);
        latBits := latBits + 1;
      }
      evenBit := !evenBit;
      bit := bit + 1;
      geohash, idx, bit := Flush(lat, lon, geohash, idx, bit);
    }
  }

  /** Where a point lies in degrees, for both axes. */
  lemma QuantisedDegrees(lat: real, lon: real, k: nat)
    ensures Quantised(LONGITUDE, lon, k) == Min(((lon + 180.0) * Pow2(k) as real / 360.0).Floor, Pow2(k) - 1)
    ensures Quantised(LATITUDE, lat, k) == Min(((lat + 90.0) * Pow2(k) as real / 180.0).Floor, Pow2(k) - 1)
  {
    ScaledFormula(LONGITUDE, lon, k);
    ScaledFormula(LATITUDE, lat, k);
  }

  /** A point has a hash exactly when it lies on the globe, of at most twelve characters. */
  lemma HashLength(lat: real, lon: real, precision: nat)
    ensures |Hash(lat, lon, precision)| ==
            if -180.0 <= lon <= 180.0 && -90.0 <= lat <= 90.0 then (if precision < 12 then precision else 12) else 0
  {
  }

  /** The hash is the one of direct quantisation; a point out of range has none. */
  method FromGeodetic(lat: real, lon: real, precision: nat) returns (geohash: string)
    ensures geohash == Hash(lat, lon, precision)
    ensures |geohash| == if -180.0 <= lon <= 180.0 && -90.0 <= lat <= 90.0
                         then (if precision < 12 then precision else 12) else 0
    ensures forall i :: 0 <= i < |geohash| ==>
              CharacterValue(geohash[i]) == Digit(lat, lon, Length(precision), i)
  {
    var latMin, latMax, lonMin, lonMax := -90.0, 90.0, -180.0, 180.0;
    if lon < lonMin || lon > lonMax {
      return "";
    }
    if lat < latMin || lat > latMax {
      return "";
    }
    geohash := BisectInTurn(lat, lon, Length(precision));
    HashIsLevelHash(lat, lon, precision);
    forall i | 0 <= i < |geohash| ensures CharacterValue(geohash[i]) == Digit(lat, lon, Length(precision), i) {
      CharactersAreDigits(lat, lon, precision, i);
    }
  }

  // ---------------------------------------------------------------- what a hash says

  lemma {:induction false} LevelHashPrefix(lat: real, lon: real, m: nat, n: nat)
    requires m <= n
    ensures LevelHash(lat, lon, m) == LevelHash(lat, lon, n)[..m]
    decreases n
  {
    if m < n { LevelHashPrefix(lat, lon, m, n - 1); }
  }

  /** A shorter hash of a point is a prefix of a longer one. */
  lemma ShorterIsPrefix(lat: real, lon: real, shorter: nat, longer: nat)
    requires shorter <= longer
    ensures Hash(lat, lon, shorter) <= Hash(lat, lon, longer)
  {
    if InRange(lat, lon) {
      HashIsLevelHash(lat, lon, shorter);
      HashIsLevelHash(lat, lon, longer);
      LevelHashPrefix(lat, lon, Length(shorter), Length(longer));
    }
  }

  lemma LevelBitIsBit(lat: real, lon: real, j: nat)
    ensures 0 <= LevelBit(lat, lon, j) < 2
  {
  }

  lemma {:induction false} AlphabetAscends(a: nat, b: nat)
    requires a < b < |ALPHABET|
    ensures ALPHABET[a] < ALPHABET[b]
    decreases b
  {
    if a < b - 1 { AlphabetAscends(a, b - 1); }
    assert ALPHABET[b - 1] < ALPHABET[b];
  }

  /** The value of a character: digits first, then the letters from b to z without i, l and o. */
  function CharacterValue(c: char): int {
    if '0' <= c <= '9' then c as int - '0' as int
    else if 'b' <= c <= 'h' then 10 + (c as int - 'b' as int)
    else if 'j' <= c <= 'k' then 17 + (c as int - 'j' as int)
    else if 'm' <= c <= 'n' then 19 + (c as int - 'm' as int)
    else if 'p' <= c <= 'z' then 21 + (c as int - 'p' as int)
    else -1
  }

  /** The alphabet holds the character of each value at its place. */
  lemma AlphabetIsByValue(d: nat)
    requires d < 32
    ensures |ALPHABET| == 32 && CharacterValue(ALPHABET[d]) == d
  {
  }

  /** The characters of a hash stand for the five-bit groups of the interleaved coordinates. */
  lemma CharactersAreDigits(lat: real, lon: real, precision: nat, i: nat)
    requires InRange(lat, lon) && i < Length(precision)
    ensures |Hash(lat, lon, precision)| == Length(precision)
    ensures CharacterValue(Hash(lat, lon, precision)[i]) == Digit(lat, lon, Length(precision), i)
  {
    DigitInAlphabet(lat, lon, Length(precision), i);
    AlphabetIsByValue(Digit(lat, lon, Length(precision), i));
  }

  lemma CellsOfARegion(lat: real, lon: real)
    requires 45.0 <= lat <= 90.0 && 0.0 <= lon < 45.0
    ensures InRange(lat, lon)
    ensures Quantised(LONGITUDE, lon, 3) == 4 && Quantised(LATITUDE, lat, 2) == 3
  {
    assert Pow2(2) == 4 && Pow2(3) == 8;
    QuantisedDegrees(lat, lon, 2);
    QuantisedDegrees(lat, lon, 3);
    assert (lon + 180.0) * 8.0 / 360.0 == 4.0 + lon / 45.0;
    assert (lat + 90.0) * 4.0 / 180.0 == 2.0 + lat / 45.0;
  }

  /** The bits 100 and 11 in turn. */
  lemma DigitOfCells(lat: real, lon: real)
    requires Quantised(LONGITUDE, lon, 3) == 4 && Quantised(LATITUDE, lat, 2) == 3
    ensures Digit(lat, lon, 1, 0) == 26
  {
    assert ShiftRight(4, 2) == ShiftRight(2, 1) == ShiftRight(1, 0) && ShiftRight(4, 1) == ShiftRight(2, 0);
    assert ShiftRight(3, 1) == ShiftRight(1, 0);
    assert HashBit(lat, lon, 1, 0) == 1 && HashBit(lat, lon, 1, 1) == 1;
    assert HashBit(lat, lon, 1, 2) == 0 && HashBit(lat, lon, 1, 3) == 1 && HashBit(lat, lon, 1, 4) == 0;
  }

  lemma OneCharacter(lat: real, lon: real, c: char)
    requires InRange(lat, lon) && c == Character(lat, lon, 1, 0)
    ensures Hash(lat, lon, 1) == [c]
  {
    assert Length(1) == 1;
  }

  lemma CharacterOf(lat: real, lon: real, d: int)
    requires 0 <= d < |ALPHABET| && d == Digit(lat, lon, 1, 0)
    ensures Character(lat, lon, 1, 0) == ALPHABET[d]
  {
  }

  lemma HashOfCells(lat: real, lon: real)
    requires InRange(lat, lon)
    requires Quantised(LONGITUDE, lon, 3) == 4 && Quantised(LATITUDE, lat, 2) == 3
    ensures Hash(lat, lon, 1) == "u"
  {
    DigitOfCells(lat, lon);
    CharacterOf(lat, lon, 26);
    OneCharacter(lat, lon, 'u');
  }

  /** The points that share their first character with fifty degrees north and eight degrees east: those
      from 45 to 90 degrees north, and from 0 to 45 degrees east, without its eastern edge. */
  lemma HashOfARegion(lat: real, lon: real)
    requires 45.0 <= lat <= 90.0 && 0.0 <= lon < 45.0
    ensures Hash(lat, lon, 1) == "u"
  {
    CellsOfARegion(lat, lon);
    HashOfCells(lat, lon);
  }

  lemma DigitsAreDistinct(a: nat, b: nat)
    requires a < |ALPHABET| && b < |ALPHABET| && ALPHABET[a] == ALPHABET[b]
    ensures a == b
  {
    if a < b { AlphabetAscends(a, b); }
    if b < a { AlphabetAscends(b, a); }
  }

  lemma {:induction false} EqualPartials(lat1: real, lon1: real, lat2: real, lon2: real, i: nat, bit: nat, k: nat)
    requires k < bit && Partial(lat1, lon1, i, bit) == Partial(lat2, lon2, i, bit)
    ensures LevelBit(lat1, lon1, 5 * i + k) == LevelBit(lat2, lon2, 5 * i + k)
    decreases bit
  {
    LevelBitIsBit(lat1, lon1, 5 * i + bit - 1);
    LevelBitIsBit(lat2, lon2, 5 * i + bit - 1);
    if k < bit - 1 { EqualPartials(lat1, lon1, lat2, lon2, i, bit - 1, k); }
  }

  lemma {:induction false} EqualHashesEqualBits(lat1: real, lon1: real, lat2: real, lon2: real, n: nat, j: nat)
    requires LevelHash(lat1, lon1, n) == LevelHash(lat2, lon2, n) && j < 5 * n
    ensures LevelBit(lat1, lon1, j) == LevelBit(lat2, lon2, j)
    decreases n
  {
    var h1, h2 := LevelHash(lat1, lon1, n), LevelHash(lat2, lon2, n);
    if j < 5 * (n - 1) {
      assert h1[..n - 1] == LevelHash(lat1, lon1, n - 1) && h2[..n - 1] == LevelHash(lat2, lon2, n - 1);
      EqualHashesEqualBits(lat1, lon1, lat2, lon2, n - 1, j);
    } else {
      var i := n - 1;
      assert h1[i] == LevelCharacter(lat1, lon1, i) && h2[i] == LevelCharacter(lat2, lon2, i);
      LevelHashGrows(lat1, lon1, i);
      LevelHashGrows(lat2, lon2, i);
      DigitsAreDistinct(Partial(lat1, lon1, i, 5), Partial(lat2, lon2, i, 5));
      EqualPartials(lat1, lon1, lat2, lon2, i, 5, j - 5 * i);
    }
  }

  /** Cell numbers that agree in every bit agree. */
  lemma {:induction false} EqualBitsEqualCells(axis: Axis, v: real, w: real, k: nat)
    requires axis.span > 0.0 && OnAxis(axis, v) && OnAxis(axis, w)
    requires forall i :: 0 < i <= k ==> Quantised(axis, v, i) % 2 == Quantised(axis, w, i) % 2
    ensures Quantised(axis, v, k) == Quantised(axis, w, k)
  {
    if k == 0 {
      WholeAxis(axis, v);
      WholeAxis(axis, w);
    } else {
      EqualBitsEqualCells(axis, v, w, k - 1);
      HalfOfNext(axis, v, k - 1);
      HalfOfNext(axis, w, k - 1);
    }
  }

  lemma EqualHashesEqualLon(lat1: real, lon1: real, lat2: real, lon2: real, n: nat)
    requires InRange(lat1, lon1) && InRange(lat2, lon2)
    requires LevelHash(lat1, lon1, n) == LevelHash(lat2, lon2, n)
    ensures Quantised(LONGITUDE, lon1, LonBits(n)) == Quantised(LONGITUDE, lon2, LonBits(n))
  {
    forall i | 0 < i <= LonBits(n)
      ensures Quantised(LONGITUDE, lon1, i) % 2 == Quantised(LONGITUDE, lon2, i) % 2
    {
      EqualHashesEqualBits(lat1, lon1, lat2, lon2, n, 2 * (i - 1));
    }
    EqualBitsEqualCells(LONGITUDE, lon1, lon2, LonBits(n));
  }

  lemma EqualHashesEqualLat(lat1: real, lon1: real, lat2: real, lon2: real, n: nat)
    requires InRange(lat1, lon1) && InRange(lat2, lon2)
    requires LevelHash(lat1, lon1, n) == LevelHash(lat2, lon2, n)
    ensures Quantised(LATITUDE, lat1, LatBits(n)) == Quantised(LATITUDE, lat2, LatBits(n))
  {
    forall i | 0 < i <= LatBits(n)
      ensures Quantised(LATITUDE, lat1, i) % 2 == Quantised(LATITUDE, lat2, i) % 2
    {
      EqualHashesEqualBits(lat1, lon1, lat2, lon2, n, 2 * (i - 1) + 1);
    }
    EqualBitsEqualCells(LATITUDE, lat1, lat2, LatBits(n));
  }

  lemma SameCellSameCharacter(lat1: real, lon1: real, lat2: real, lon2: real, p: nat, i: nat)
    requires i < p
    requires Quantised(LONGITUDE, lon1, LonBits(p)) == Quantised(LONGITUDE, lon2, LonBits(p))
    requires Quantised(LATITUDE, lat1, LatBits(p)) == Quantised(LATITUDE, lat2, LatBits(p))
    ensures Character(lat1, lon1, p, i) == Character(lat2, lon2, p, i)
  {
  }

  predicate SameCell(lat1: real, lon1: real, lat2: real, lon2: real, p: nat) {
    && Quantised(LONGITUDE, lon1, LonBits(p)) == Quantised(LONGITUDE, lon2, LonBits(p))
    && Quantised(LATITUDE, lat1, LatBits(p)) == Quantised(LATITUDE, lat2, LatBits(p))
  }

  /** Two points have the same hash exactly when they lie in the same cell of both axes. */
  lemma SameHashIffSameCell(lat1: real, lon1: real, lat2: real, lon2: real, precision: nat)
    requires InRange(lat1, lon1) && InRange(lat2, lon2)
    ensures Hash(lat1, lon1, precision) == Hash(lat2, lon2, precision)
      <==> SameCell(lat1, lon1, lat2, lon2, Length(precision))
  {
    var p := Length(precision);
    HashIsLevelHash(lat1, lon1, precision);
    HashIsLevelHash(lat2, lon2, precision);
    if Hash(lat1, lon1, precision) == Hash(lat2, lon2, precision) {
      EqualHashesEqualLon(lat1, lon1, lat2, lon2, p);
      EqualHashesEqualLat(lat1, lon1, lat2, lon2, p);
    } else if SameCell(lat1, lon1, lat2, lon2, p) {
      forall i | 0 <= i < p ensures LevelHash(lat1, lon1, p)[i] == LevelHash(lat2, lon2, p)[i] {
        LevelHashAt(lat1, lon1, p, p, i);
        LevelHashAt(lat2, lon2, p, p, i);
        SameCellSameCharacter(lat1, lon1, lat2, lon2, p, i);
      }
    }
  }
}
