/** Local east-north-up coordinates at a reference point and earth-centred coordinates. An angle is
    given by its sine and cosine; numbers are real. */
module Coordinates {
  import opened Reals

  datatype SineCosine = SineCosine(sin: real, cos: real)

  type Angle = a: SineCosine | a.sin * a.sin + a.cos * a.cos == 1.0 witness SineCosine(0.0, 1.0)

  datatype Geodetic = Geodetic(lat: Angle, lon: Angle, h: real)

  datatype Ecef = Ecef(x: real, y: real, z: real)

  datatype Enu = Enu(x: real, y: real, z: real)

  /** The conversions between geodetic and earth-centred coordinates, and the root. */
  datatype Earth = Earth(toGeodetic: Ecef -> Geodetic, toEcef: Geodetic -> Ecef, sqrt: real -> real)

  /** The conversions at a reference whose geodetic coordinates are g. */
  function ToEcefAt(g: Geodetic, coords: Enu, reference: Ecef): Ecef {
    Ecef(-g.lon.sin * coords.x - g.lat.sin * g.lon.cos * coords.y + g.lat.cos * g.lon.cos * coords.z + reference.x,
         g.lon.cos * coords.x - g.lat.sin * g.lon.sin * coords.y + g.lat.cos * g.lon.sin * coords.z + reference.y,
         g.lat.cos * coords.y + g.lat.sin * coords.z + reference.z)
  }

  function ToEnuAt(g: Geodetic, coords: Ecef, reference: Ecef): Enu {
    var d := Ecef(coords.x - reference.x, coords.y - reference.y, coords.z - reference.z);
    Enu(-g.lon.sin * d.x + g.lon.cos * d.y,
        -g.lat.sin * g.lon.cos * d.x - g.lat.sin * g.lon.sin * d.y + g.lat.cos * d.z,
        g.lat.cos * g.lon.cos * d.x + g.lat.cos * g.lon.sin * d.y + g.lat.sin * d.z)
  }

  function ToEcef(earth: Earth, coords: Enu, reference: Ecef): Ecef {
    ToEcefAt(earth.toGeodetic(reference), coords, reference)
  }

  function ToEnu(earth: Earth, coords: Ecef, reference: Ecef): Enu {
    ToEnuAt(earth.toGeodetic(reference), coords, reference)
  }

  function GeodeticToEnu(earth: Earth, coords: Geodetic, reference: Ecef): Enu {
    ToEnu(earth, earth.toEcef(coords), reference)
  }

  function EnuToGeodetic(earth: Earth, coords: Enu, reference: Ecef): Geodetic {
    earth.toGeodetic(ToEcef(earth, coords, reference))
  }

  function SquaredLength(v: Enu): real {
    Square(v.x) + Square(v.y) + Square(v.z)
  }

  function SquaredDistance(p: Ecef, q: Ecef): real {
    Square(p.x - q.x) + Square(p.y - q.y) + Square(p.z - q.z)
  }

  function StraightDistance(earth: Earth, first: Geodetic, second: Geodetic): real {
    earth.sqrt(SquaredLength(GeodeticToEnu(earth, second, earth.toEcef(first))))
  }

  /** A vector of a plane. */
  datatype Plane = Plane(x: real, y: real)

  /** The orthogonal map of a plane that both conversions are made of. */
  function Turn(a: Angle, p: Plane): Plane {
    Plane(-a.sin * p.x + a.cos * p.y, a.cos * p.x + a.sin * p.y)
  }

  lemma TurnTwice(a: Angle, p: Plane)
    ensures Turn(a, Turn(a, p)) == p
  {
    var s, c, x, y := a.sin, a.cos, p.x, p.y;
    assert -s * (-s * x + c * y) + c * (c * x + s * y) == (s * s + c * c) * x;
    assert c * (-s * x + c * y) + s * (c * x + s * y) == (s * s + c * c) * y;
  }

  lemma TurnKeepsLength(a: Angle, p: Plane)
    ensures Square(Turn(a, p).x) + Square(Turn(a, p).y) == Square(p.x) + Square(p.y)
  {
    var s, c, x, y := a.sin, a.cos, p.x, p.y;
    var ss, cc := s * s, c * c;
    assert Square(-s * x + c * y) == ss * (x * x) - 2.0 * (s * c) * (x * y) + cc * (y * y);
    assert Square(c * x + s * y) == cc * (x * x) + 2.0 * (s * c) * (x * y) + ss * (y * y);
    assert ss * (x * x) + cc * (x * x) == (ss + cc) * (x * x);
    assert ss * (y * y) + cc * (y * y) == (ss + cc) * (y * y);
  }

  /** From earth-centred differences to local coordinates: turn by the longitude, then by the latitude. */
  function Inward(lat: Angle, lon: Angle, d: Ecef): Enu {
    var across := Turn(lon, Plane(d.x, d.y));
    var up := Turn(lat, Plane(across.y, d.z));
    Enu(across.x, up.x, up.y)
  }

  /** And back: turn by the latitude, then by the longitude. */
  function Outward(lat: Angle, lon: Angle, v: Enu): Ecef {
    var up := Turn(lat, Plane(v.y, v.z));
    var across := Turn(lon, Plane(v.x, up.x));
    Ecef(across.x, across.y, up.y)
  }

  function Plus(d: Ecef, reference: Ecef): Ecef {
    Ecef(d.x + reference.x, d.y + reference.y, d.z + reference.z)
  }

  function Minus(p: Ecef, reference: Ecef): Ecef {
    Ecef(p.x - reference.x, p.y - reference.y, p.z - reference.z)
  }

  lemma InwardSums(s2: real, c2: real, s1: real, c1: real, x: real, y: real, z: real, across: real)
    requires across == c1 * x + s1 * y
    ensures -s2 * c1 * x - s2 * s1 * y + c2 * z == -s2 * across + c2 * z
    ensures c2 * c1 * x + c2 * s1 * y + s2 * z == c2 * across + s2 * z
  {
    assert -s2 * across == -s2 * c1 * x - s2 * s1 * y;
    assert c2 * across == c2 * c1 * x + c2 * s1 * y;
  }

  lemma OutwardSums(s2: real, c2: real, s1: real, c1: real, x: real, y: real, z: real, up: real)
    requires up == -s2 * y + c2 * z
    ensures -s1 * x - s2 * c1 * y + c2 * c1 * z == -s1 * x + c1 * up
    ensures c1 * x - s2 * s1 * y + c2 * s1 * z == c1 * x + s1 * up
  {
    assert c1 * up == -(s2 * c1 * y) + c2 * c1 * z;
    assert s1 * up == -(s2 * s1 * y) + c2 * s1 * z;
  }

  lemma ToEnuIsInward(g: Geodetic, p: Ecef, reference: Ecef)
    ensures ToEnuAt(g, p, reference) == Inward(g.lat, g.lon, Minus(p, reference))
  {
    var d := Minus(p, reference);
    var across := Turn(g.lon, Plane(d.x, d.y)).y;
    InwardSums(g.lat.sin, g.lat.cos, g.lon.sin, g.lon.cos, d.x, d.y, d.z, across);
    var inward := Inward(g.lat, g.lon, d);
    assert inward.x == -g.lon.sin * d.x + g.lon.cos * d.y;
    assert inward.y == -g.lat.sin * across + g.lat.cos * d.z;
    assert inward.z == g.lat.cos * across + g.lat.sin * d.z;
  }

  lemma ToEcefIsOutward(g: Geodetic, v: Enu, reference: Ecef)
    ensures ToEcefAt(g, v, reference) == Plus(Outward(g.lat, g.lon, v), reference)
  {
    var up := Turn(g.lat, Plane(v.y, v.z)).x;
    OutwardSums(g.lat.sin, g.lat.cos, g.lon.sin, g.lon.cos, v.x, v.y, v.z, up);
    var p, outward := ToEcefAt(g, v, reference), Outward(g.lat, g.lon, v);
    assert outward.x == -g.lon.sin * v.x + g.lon.cos * up;
    assert outward.y == g.lon.cos * v.x + g.lon.sin * up;
    assert outward.z == g.lat.cos * v.y + g.lat.sin * v.z;
    assert p.z == outward.z + reference.z;
    assert p.x == outward.x + reference.x;
    assert p.y == outward.y + reference.y;
  }

  lemma InwardOfOutward(lat: Angle, lon: Angle, v: Enu)
    ensures Inward(lat, lon, Outward(lat, lon, v)) == v
  {
    var up := Turn(lat, Plane(v.y, v.z));
    TurnTwice(lon, Plane(v.x, up.x));
    TurnTwice(lat, Plane(v.y, v.z));
  }

  lemma OutwardOfInward(lat: Angle, lon: Angle, d: Ecef)
    ensures Outward(lat, lon, Inward(lat, lon, d)) == d
  {
    var across := Turn(lon, Plane(d.x, d.y));
    TurnTwice(lat, Plane(across.y, d.z));
    TurnTwice(lon, Plane(d.x, d.y));
  }

  /** Both conversions at one reference undo each other, whatever the reference is. */
  lemma MutualInverses(earth: Earth, p: Ecef, v: Enu, reference: Ecef)
    ensures ToEcef(earth, ToEnu(earth, p, reference), reference) == p
    ensures ToEnu(earth, ToEcef(earth, v, reference), reference) == v
  {
    var g := earth.toGeodetic(reference);
    ToEnuIsInward(g, p, reference);
    ToEcefIsOutward(g, ToEnu(earth, p, reference), reference);
    OutwardOfInward(g.lat, g.lon, Minus(p, reference));
    ToEcefIsOutward(g, v, reference);
    var q := ToEcef(earth, v, reference);
    ToEnuIsInward(g, q, reference);
    assert Minus(q, reference) == Outward(g.lat, g.lon, v);
    InwardOfOutward(g.lat, g.lon, v);
  }

  lemma Zeros(a: real, b: real, c: real)
    ensures a * 0.0 == 0.0 && a * b * 0.0 == 0.0 && a * b * c == c * (a * b) && a * c == c * a
  {
  }

  /** A point straight above the reference. */
  function Above(g: Geodetic, up: real): Ecef {
    Ecef(up * (g.lat.cos * g.lon.cos), up * (g.lat.cos * g.lon.sin), up * g.lat.sin)
  }

  lemma UpIsOutward(g: Geodetic, up: real, reference: Ecef)
    ensures ToEcefAt(g, Enu(0.0, 0.0, up), reference) == Plus(Above(g, up), reference)
  {
    Zeros(g.lat.sin, g.lon.cos, up);
    Zeros(g.lat.sin, g.lon.sin, up);
    Zeros(g.lat.cos, g.lon.cos, up);
    Zeros(g.lat.cos, g.lon.sin, up);
    Zeros(-g.lon.sin, g.lat.sin, up);
    Zeros(g.lon.cos, g.lat.sin, up);
    var p, above := ToEcefAt(g, Enu(0.0, 0.0, up), reference), Above(g, up);
    assert p.x == above.x + reference.x;
    assert p.y == above.y + reference.y;
    assert p.z == above.z + reference.z;
  }

  lemma EastAndNorth(g: Geodetic, east: real, north: real, reference: Ecef)
    ensures ToEcefAt(g, Enu(east, 0.0, 0.0), reference) ==
            Plus(Ecef(-(east * g.lon.sin), east * g.lon.cos, 0.0), reference)
    ensures ToEcefAt(g, Enu(0.0, north, 0.0), reference).z == north * g.lat.cos + reference.z
  {
    Zeros(g.lat.sin, g.lon.cos, east);
    Zeros(g.lat.sin, g.lon.sin, east);
    Zeros(g.lat.cos, g.lon.cos, north);
    Zeros(g.lat.cos, g.lon.sin, east);
    Zeros(g.lon.sin, g.lat.sin, east);
    Zeros(g.lon.cos, g.lat.sin, east);
  }

  /** What the three local axes are: the third one points along the vertical of the reference, and a
      point on the vertical has only a height; the first one is horizontal and points to growing
      longitudes; the second one climbs towards the pole. */
  lemma AxesAreEastNorthUp(earth: Earth, east: real, north: real, up: real, reference: Ecef)
    ensures var g := earth.toGeodetic(reference);
      && ToEnu(earth, Plus(Above(g, up), reference), reference) == Enu(0.0, 0.0, up)
      && ToEcef(earth, Enu(0.0, 0.0, up), reference) == Plus(Above(g, up), reference)
      && ToEcef(earth, Enu(east, 0.0, 0.0), reference) ==
           Plus(Ecef(-(east * g.lon.sin), east * g.lon.cos, 0.0), reference)
      && ToEcef(earth, Enu(0.0, north, 0.0), reference).z == north * g.lat.cos + reference.z
  {
    var g := earth.toGeodetic(reference);
    UpIsOutward(g, up, reference);
    EastAndNorth(g, east, north, reference);
    MutualInverses(earth, reference, Enu(0.0, 0.0, up), reference);
  }

  /** Going to local coordinates and back is the same as going to earth-centred ones and back. */
  lemma GeodeticRoundTrip(earth: Earth, coords: Geodetic, reference: Ecef)
    ensures EnuToGeodetic(earth, GeodeticToEnu(earth, coords, reference), reference) ==
            earth.toGeodetic(earth.toEcef(coords))
  {
    MutualInverses(earth, earth.toEcef(coords), Enu(0.0, 0.0, 0.0), reference);
  }

  lemma InwardKeepsLength(lat: Angle, lon: Angle, d: Ecef)
    ensures SquaredLength(Inward(lat, lon, d)) == Square(d.x) + Square(d.y) + Square(d.z)
  {
    var across := Turn(lon, Plane(d.x, d.y));
    TurnKeepsLength(lon, Plane(d.x, d.y));
    TurnKeepsLength(lat, Plane(across.y, d.z));
  }

  /** Local coordinates are as long as the point is far from the reference. */
  lemma EnuKeepsLength(earth: Earth, p: Ecef, reference: Ecef)
    ensures SquaredLength(ToEnu(earth, p, reference)) == SquaredDistance(p, reference)
  {
    var g := earth.toGeodetic(reference);
    ToEnuIsInward(g, p, reference);
    InwardKeepsLength(g.lat, g.lon, Minus(p, reference));
  }

  lemma TurnIsLinear(a: Angle, p: Plane, q: Plane)
    ensures var t, u := Turn(a, p), Turn(a, q);
            Turn(a, Plane(p.x - q.x, p.y - q.y)) == Plane(t.x - u.x, t.y - u.y)
  {
  }

  /** The local frame is rigid: it keeps the distance of any two points. */
  lemma EnuKeepsDistances(earth: Earth, p: Ecef, q: Ecef, reference: Ecef)
    ensures var v, w := ToEnu(earth, p, reference), ToEnu(earth, q, reference);
            SquaredLength(Enu(v.x - w.x, v.y - w.y, v.z - w.z)) == SquaredDistance(p, q)
  {
    var g := earth.toGeodetic(reference);
    var d, e := Minus(p, reference), Minus(q, reference);
    ToEnuIsInward(g, p, reference);
    ToEnuIsInward(g, q, reference);
    var a, b := Turn(g.lon, Plane(d.x, d.y)), Turn(g.lon, Plane(e.x, e.y));
    TurnIsLinear(g.lon, Plane(d.x, d.y), Plane(e.x, e.y));
    TurnIsLinear(g.lat, Plane(a.y, d.z), Plane(b.y, e.z));
    assert Minus(d, e) == Minus(p, q);
    InwardKeepsLength(g.lat, g.lon, Minus(p, q));
  }

  lemma SquaresVanish(x: real, y: real, z: real)
    ensures Square(x) + Square(y) + Square(z) == 0.0 <==> x == 0.0 && y == 0.0 && z == 0.0
  {
    SquareSign(x);
    SquareSign(y);
    SquareSign(z);
  }

  /** `straight_distance` is the root of the squared distance between the two points, so it does not
      depend on the order of its arguments; that square is zero exactly when the points are one. */
  lemma DistanceIsSymmetric(earth: Earth, first: Geodetic, second: Geodetic)
    ensures var p, q := earth.toEcef(first), earth.toEcef(second);
            && StraightDistance(earth, first, second) == earth.sqrt(SquaredDistance(p, q))
            && StraightDistance(earth, first, second) == StraightDistance(earth, second, first)
            && SquaredDistance(p, q) >= 0.0
            && (SquaredDistance(p, q) == 0.0 <==> p == q)
  {
    var p, q := earth.toEcef(first), earth.toEcef(second);
    EnuKeepsLength(earth, q, p);
    EnuKeepsLength(earth, p, q);
    assert Square(q.x - p.x) == Square(p.x - q.x);
    assert Square(q.y - p.y) == Square(p.y - q.y);
    assert Square(q.z - p.z) == Square(p.z - q.z);
    SquaresVanish(p.x - q.x, p.y - q.y, p.z - q.z);
    SquareSign(p.x - q.x);
    SquareSign(p.y - q.y);
    SquareSign(p.z - q.z);
  }
}
