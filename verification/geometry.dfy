/** Geometry on latitude/longitude rectangles (utils/bounds.py).

    Coordinates are exact reals in degrees.  The trigonometric functions are
    not interpreted: they arrive as the fields of a `Trig` record, so every
    property below holds for whatever sin, cos, asin and acos are plugged in,
    and the few that need a trigonometric fact name it in their `requires`. */
module Geometry {
  import opened Wrappers

  /** `math.pi`, written out as a decimal. */
  const Pi: real := 3.141592653589793

  /** Sphere radius used by the converter, in kilometres. */
  const EarthRadius: real := 6378.1

  function Radians(deg: real): real { deg * Pi / 180.0 }

  function Degrees(rad: real): real { rad * 180.0 / Pi }

  const MinLat: real := Radians(-90.0)
  const MaxLat: real := Radians(90.0)
  const MinLng: real := Radians(-180.0)
  const MaxLng: real := Radians(180.0)

  function Min(a: real, b: real): real { if a <= b then a else b }

  function Max(a: real, b: real): real { if a >= b then a else b }

  /** The coordinate dictionary: `lat`, `lng` and, for route points, `time`. */
  datatype Point = Point(lat: real, lng: real, time: Option<real>)

  /** Two opposite corners, in whatever order the producer left them. */
  datatype Bounds = Bounds(corner1: Point, corner2: Point)

  /** The normalised rectangle of rtreelib (x is latitude, y is longitude). */
  datatype Rect = Rect(minLat: real, minLng: real, maxLat: real, maxLng: real)

  /** The math functions `utils/bounds.py` imports, left uninterpreted. */
  datatype Trig = Trig(sin: real -> real, cos: real -> real, asin: real -> real, acos: real -> real)

  /** `Exception("Illegal arguments")`, `ZeroDivisionError`. */
  datatype GeoError = IllegalArguments | ZeroDivision

  predicate ValidCoords(p: Point) {
    -90.0 <= p.lat <= 90.0 && -180.0 <= p.lng <= 180.0
  }

  predicate InClosedRect(lat: real, lng: real, r: Rect) {
    r.minLat <= lat <= r.maxLat && r.minLng <= lng <= r.maxLng
  }

  predicate InOpenRect(lat: real, lng: real, r: Rect) {
    r.minLat < lat < r.maxLat && r.minLng < lng < r.maxLng
  }

  /** Rectangle `a` lies inside rectangle `b`. */
  predicate RectWithin(a: Rect, b: Rect) {
    b.minLat <= a.minLat && a.maxLat <= b.maxLat && b.minLng <= a.minLng && a.maxLng <= b.maxLng
  }

  /** The closed rectangles share at least one point. */
  predicate Overlaps(a: Rect, b: Rect) {
    a.minLat <= b.maxLat && b.minLat <= a.maxLat && a.minLng <= b.maxLng && b.minLng <= a.maxLng
  }

  predicate Normalised(r: Rect) {
    r.minLat <= r.maxLat && r.minLng <= r.maxLng
  }

  lemma DegreesOfRadians(x: real)
    ensures Degrees(Radians(x)) == x
  {
  }

  /** A point carries a time exactly when one was supplied. */
  function CoordsObj(lat: real, lng: real, time: Option<real>): (p: Point)
    ensures p.lat == lat && p.lng == lng
    ensures p.time.Some? <==> time.Some?
    ensures time.Some? ==> p.time == time
  {
    if time.None? then Point(lat, lng, None) else Point(lat, lng, time)
  }

  /** Raises unless latitude is in [-90, 90] and longitude in [-180, 180];
      the code compares in radians. */
  function CheckBounds(p: Point): (r: Outcome<GeoError>)
    ensures r.Pass? <==> ValidCoords(p)
    ensures r.Fail? ==> r.error == IllegalArguments
  {
    var lat := Radians(p.lat);
    var lng := Radians(p.lng);
    if lat < MinLat || lat > MaxLat || lng < MinLng || lng > MaxLng then Fail(IllegalArguments) else Pass
  }

  /** The cosine of the central angle between two points. */
  function CentralCos(t: Trig, p1: Point, p2: Point): real {
    var lat1 := Radians(p1.lat);
    var lat2 := Radians(p2.lat);
    t.sin(lat1) * t.sin(lat2) + t.cos(lat1) * t.cos(lat2) * t.cos(Radians(p1.lng) - Radians(p2.lng))
  }

  /** Spherical law of cosines. */
  function DistanceTo(t: Trig, p1: Point, p2: Point, radius: real): (r: real)
    ensures t.acos(CentralCos(t, p1, p2)) == 0.0 ==> r == 0.0
    ensures radius >= 0.0 && t.acos(CentralCos(t, p1, p2)) >= 0.0 ==> r >= 0.0
  {
    radius * t.acos(CentralCos(t, p1, p2))
  }

  ghost predicate CosIsEven(t: Trig) {
    forall x: real :: t.cos(-x) == t.cos(x)
  }

  /** The distance does not depend on the order of the two points, given only
      that cosine is even. */
  lemma DistanceToSymmetric(t: Trig, p1: Point, p2: Point, radius: real)
    requires CosIsEven(t)
    ensures DistanceTo(t, p1, p2, radius) == DistanceTo(t, p2, p1, radius)
  {
    var lat1, lat2 := Radians(p1.lat), Radians(p2.lat);
    var d := Radians(p1.lng) - Radians(p2.lng);
    assert Radians(p2.lng) - Radians(p1.lng) == -d;
    assert t.cos(-d) == t.cos(d);
    var s1, s2, c1, c2, k := t.sin(lat1), t.sin(lat2), t.cos(lat1), t.cos(lat2), t.cos(d);
    assert s1 * s2 == s2 * s1;
    assert c1 * c2 * k == c2 * c1 * k;
    assert CentralCos(t, p1, p2) == CentralCos(t, p2, p1);
  }

  /** A point is at distance zero from itself, given sin^2 + cos^2 = 1 at its
      latitude, cos 0 = 1 and acos 1 = 0. */
  lemma DistanceToSelf(t: Trig, p: Point, radius: real)
    requires t.sin(Radians(p.lat)) * t.sin(Radians(p.lat)) + t.cos(Radians(p.lat)) * t.cos(Radians(p.lat)) == 1.0
    requires t.cos(0.0) == 1.0 && t.acos(1.0) == 0.0
    ensures DistanceTo(t, p, p, radius) == 0.0
  {
    var a := Radians(p.lat);
    assert Radians(p.lng) - Radians(p.lng) == 0.0;
    var s, c := t.sin(a), t.cos(a);
    assert c * c * t.cos(0.0) == c * c;
    assert CentralCos(t, p, p) == 1.0;
  }

  /** The band [lat - d, lat + d] (degrees) reaches a pole. */
  predicate ReachesPole(p: Point, d: real) {
    p.lat - d <= -90.0 || p.lat + d >= 90.0
  }

  /** The half-width in longitude of the box, in radians, before wrapping. */
  function DeltaLng(t: Trig, p: Point, radDist: real): real
    requires t.cos(Radians(p.lat)) != 0.0
  {
    t.asin(t.sin(radDist) / t.cos(Radians(p.lat)))
  }

  /** The bounding box of the spherical cap of angular radius
      distance/radius around `p`; a cap that reaches a pole becomes the full
      longitude band clipped at the pole. */
  function BoundingLocations(t: Trig, p: Point, distance: real, radius: real): (r: Result<Bounds, GeoError>)
    ensures (r.Failure? && r.error == IllegalArguments) <==> (radius < 0.0 || distance < 0.0 || !ValidCoords(p))
    ensures radius == 0.0 && distance >= 0.0 && ValidCoords(p) ==> r == Failure(ZeroDivision)
    ensures r.Success? ==> r.value.corner1.time.None? && r.value.corner2.time.None?
    ensures r.Success? ==> radius > 0.0
    ensures radius > 0.0 && distance >= 0.0 && ValidCoords(p) ==>
      var d := Degrees(distance / radius);
      ReachesPole(p, d) ==>
        r == Success(Bounds(Point(Max(p.lat - d, -90.0), -180.0, None), Point(Min(p.lat + d, 90.0), 180.0, None)))
    ensures r.Success? ==>
      var d := Degrees(distance / radius);
      !ReachesPole(p, d) ==> r.value.corner1.lat == p.lat - d && r.value.corner2.lat == p.lat + d
    ensures radius > 0.0 && distance >= 0.0 && ValidCoords(p) && !ReachesPole(p, Degrees(distance / radius)) ==>
      (r.Failure? <==> t.cos(Radians(p.lat)) == 0.0) && (r.Failure? ==> r.error == ZeroDivision)
    ensures r.Success? && !ReachesPole(p, Degrees(distance / radius)) ==>
      && t.cos(Radians(p.lat)) != 0.0
      && var delta := DeltaLng(t, p, distance / radius);
         var west := Radians(p.lng) - delta;
         var east := Radians(p.lng) + delta;
         && r.value.corner1.lng == Degrees(if west < MinLng then west + 2.0 * Pi else west)
         && r.value.corner2.lng == Degrees(if east > MaxLng then east - 2.0 * Pi else east)
  {
    if radius < 0.0 || distance < 0.0 || CheckBounds(p).Fail? then
      Failure(IllegalArguments)
    else if radius == 0.0 then
      Failure(ZeroDivision)
    else
      var radDist := distance / radius;
      var minLat := Radians(p.lat) - radDist;
      var maxLat := Radians(p.lat) + radDist;
      DegreesOfRadians(p.lat);
      assert Degrees(minLat) == p.lat - Degrees(radDist);
      assert Degrees(maxLat) == p.lat + Degrees(radDist);
      if minLat > MinLat && maxLat < MaxLat then
        if t.cos(Radians(p.lat)) == 0.0 then
          Failure(ZeroDivision)
        else
          var deltaLng := DeltaLng(t, p, radDist);
          var minLng0 := Radians(p.lng) - deltaLng;
          var minLng := if minLng0 < MinLng then minLng0 + 2.0 * Pi else minLng0;
          var maxLng0 := Radians(p.lng) + deltaLng;
          var maxLng := if maxLng0 > MaxLng then maxLng0 - 2.0 * Pi else maxLng0;
          Success(Bounds(Point(Degrees(minLat), Degrees(minLng), None), Point(Degrees(maxLat), Degrees(maxLng), None)))
      else
        var lo := Max(minLat, MinLat);
        var hi := Min(maxLat, MaxLat);
        assert Degrees(lo) == Max(p.lat - Degrees(radDist), -90.0);
        assert Degrees(hi) == Min(p.lat + Degrees(radDist), 90.0);
        Success(Bounds(Point(Degrees(lo), Degrees(MinLng), None), Point(Degrees(hi), Degrees(MaxLng), None)))
  }

  /** The trigonometric facts the box construction relies on: cosine is
      positive strictly between the poles, sine is non-negative on [0, pi],
      and asin maps non-negative arguments into [0, pi/2]. */
  ghost predicate TrigFacts(t: Trig) {
    && (forall x: real :: -Pi / 2.0 < x < Pi / 2.0 ==> t.cos(x) > 0.0)
    && (forall x: real :: 0.0 <= x <= Pi ==> t.sin(x) >= 0.0)
    && (forall x: real :: 0.0 <= x ==> 0.0 <= t.asin(x) <= Pi / 2.0)
  }

  /** With real trigonometry the box exists for every valid centre and
      non-negative distance on a sphere of positive radius, and both of its
      corners are valid coordinates again. */
  lemma BoundingLocationsValidCorners(t: Trig, p: Point, distance: real, radius: real)
    requires TrigFacts(t)
    requires ValidCoords(p) && distance >= 0.0 && radius > 0.0
    ensures BoundingLocations(t, p, distance, radius).Success?
    ensures ValidCoords(BoundingLocations(t, p, distance, radius).value.corner1)
    ensures ValidCoords(BoundingLocations(t, p, distance, radius).value.corner2)
  {
    var radDist := distance / radius;
    var minLat := Radians(p.lat) - radDist;
    var maxLat := Radians(p.lat) + radDist;
    if minLat > MinLat && maxLat < MaxLat {
      var lat := Radians(p.lat);
      assert -Pi / 2.0 < lat < Pi / 2.0;
      assert t.cos(lat) > 0.0;
      assert 0.0 <= radDist <= Pi;
      assert t.sin(radDist) >= 0.0;
      var ratio := t.sin(radDist) / t.cos(lat);
      assert ratio >= 0.0;
      var delta := DeltaLng(t, p, radDist);
      assert delta == t.asin(ratio);
      assert 0.0 <= delta <= Pi / 2.0;
      var r := BoundingLocations(t, p, distance, radius).value;
      LongitudeWrapInRange(Radians(p.lng), delta);
    }
  }

  /** Subtracting (adding) a half-width of at most pi/2 and wrapping once by
      2 pi keeps a longitude inside [-180, 180] degrees. */
  lemma LongitudeWrapInRange(lng: real, delta: real)
    requires MinLng <= lng <= MaxLng && 0.0 <= delta <= Pi / 2.0
    ensures var lo0 := lng - delta; var lo := if lo0 < MinLng then lo0 + 2.0 * Pi else lo0;
      -180.0 <= Degrees(lo) <= 180.0
    ensures var hi0 := lng + delta; var hi := if hi0 > MaxLng then hi0 - 2.0 * Pi else hi0;
      -180.0 <= Degrees(hi) <= 180.0
  {
  }

  /** A centre close enough to the 180th meridian gets a box whose east
      corner wraps to a negative longitude; read as an ordinary rectangle the
      box then lies on the far side of the globe and misses its own centre. */
  lemma BoundingLocationsAcrossAntimeridian(t: Trig, p: Point, distance: real, radius: real)
    requires TrigFacts(t)
    requires ValidCoords(p) && distance >= 0.0 && radius > 0.0
    requires !ReachesPole(p, Degrees(distance / radius))
    requires t.cos(Radians(p.lat)) != 0.0
    requires 0.0 < DeltaLng(t, p, distance / radius)
    requires Radians(p.lng) + DeltaLng(t, p, distance / radius) > MaxLng
    ensures BoundingLocations(t, p, distance, radius).Success?
    ensures !InClosedRect(p.lat, p.lng, BoundingBox(BoundingLocations(t, p, distance, radius).value))
  {
    BoundingLocationsValidCorners(t, p, distance, radius);
    var radDist := distance / radius;
    DegreesOfRadians(p.lat);
    assert Radians(p.lat) - radDist > MinLat && Radians(p.lat) + radDist < MaxLat;
    var delta := DeltaLng(t, p, radDist);
    assert delta <= Pi / 2.0 by {
      var lat := Radians(p.lat);
      assert t.cos(lat) > 0.0;
      assert t.sin(radDist) >= 0.0;
    }
    var b := BoundingLocations(t, p, distance, radius).value;
    assert b.corner2.lng == Degrees(Radians(p.lng) + delta - 2.0 * Pi);
    assert b.corner2.lng < p.lng;
  }

  /** Neither longitude corner of the box wraps around the 180th meridian. */
  predicate NoWrap(t: Trig, p: Point, radDist: real) {
    && t.cos(Radians(p.lat)) != 0.0
    && MinLng <= Radians(p.lng) - DeltaLng(t, p, radDist)
    && Radians(p.lng) + DeltaLng(t, p, radDist) <= MaxLng
  }

  /** A box that reaches a pole, or whose corners do not wrap, contains its
      own centre as an ordinary rectangle. */
  lemma BoundingLocationsContainsCentre(t: Trig, p: Point, distance: real, radius: real)
    requires TrigFacts(t)
    requires ValidCoords(p) && distance >= 0.0 && radius > 0.0
    requires ReachesPole(p, Degrees(distance / radius)) || NoWrap(t, p, distance / radius)
    ensures BoundingLocations(t, p, distance, radius).Success?
    ensures InClosedRect(p.lat, p.lng, BoundingBox(BoundingLocations(t, p, distance, radius).value))
  {
    BoundingLocationsValidCorners(t, p, distance, radius);
    var radDist := distance / radius;
    assert Degrees(radDist) >= 0.0;
    if !ReachesPole(p, Degrees(radDist)) {
      var delta := DeltaLng(t, p, radDist);
      assert 0.0 <= delta by {
        assert t.cos(Radians(p.lat)) > 0.0;
        assert t.sin(radDist) >= 0.0;
      }
      DegreesOfRadians(p.lng);
      assert Degrees(Radians(p.lng) - delta) <= p.lng <= Degrees(Radians(p.lng) + delta);
    }
  }

  /** The longitude `lng` lies on the arc running east from `west` to
      `east`, which crosses the 180th meridian when `west > east`. */
  predicate OnLongitudeArc(lng: real, west: real, east: real) {
    if west <= east then west <= lng <= east else west <= lng || lng <= east
  }

  /** The box read as the corners lay it out: latitude between the corners,
      longitude on the arc from the first corner east to the second. */
  predicate InWrappedBox(lat: real, lng: real, b: Bounds) {
    Min(b.corner1.lat, b.corner2.lat) <= lat <= Max(b.corner1.lat, b.corner2.lat)
    && OnLongitudeArc(lng, b.corner1.lng, b.corner2.lng)
  }

  /** Read with a wrapped longitude arc, the box always contains its centre,
      also where the corners wrap around the 180th meridian. */
  lemma BoundingLocationsCoversCentre(t: Trig, p: Point, distance: real, radius: real)
    requires TrigFacts(t)
    requires ValidCoords(p) && distance >= 0.0 && radius > 0.0
    ensures BoundingLocations(t, p, distance, radius).Success?
    ensures InWrappedBox(p.lat, p.lng, BoundingLocations(t, p, distance, radius).value)
  {
    BoundingLocationsValidCorners(t, p, distance, radius);
    var radDist := distance / radius;
    var b := BoundingLocations(t, p, distance, radius).value;
    assert Degrees(radDist) >= 0.0;
    if !ReachesPole(p, Degrees(radDist)) {
      var delta := DeltaLng(t, p, radDist);
      assert 0.0 <= delta <= Pi / 2.0 by {
        assert t.cos(Radians(p.lat)) > 0.0;
        assert t.sin(radDist) >= 0.0;
      }
      var lng := Radians(p.lng);
      DegreesOfRadians(p.lng);
      var west, east := lng - delta, lng + delta;
      if west < MinLng {
        assert east <= MaxLng;
        assert b.corner1.lng == Degrees(west + 2.0 * Pi) && b.corner2.lng == Degrees(east);
        assert p.lng <= Degrees(east);
      } else if east > MaxLng {
        assert b.corner1.lng == Degrees(west) && b.corner2.lng == Degrees(east - 2.0 * Pi);
        assert Degrees(west) <= p.lng;
      } else {
        assert Degrees(west) <= p.lng <= Degrees(east);
      }
    }
  }

  /** The normalised rectangle of two corners given in any order. */
  function BoundingBox(b: Bounds): (r: Rect)
    ensures Normalised(r)
    ensures InClosedRect(b.corner1.lat, b.corner1.lng, r) && InClosedRect(b.corner2.lat, b.corner2.lng, r)
    ensures (r.minLat == b.corner1.lat || r.minLat == b.corner2.lat) && (r.maxLat == b.corner1.lat || r.maxLat == b.corner2.lat)
    ensures (r.minLng == b.corner1.lng || r.minLng == b.corner2.lng) && (r.maxLng == b.corner1.lng || r.maxLng == b.corner2.lng)
  {
    Rect(Min(b.corner1.lat, b.corner2.lat), Min(b.corner1.lng, b.corner2.lng),
         Max(b.corner1.lat, b.corner2.lat), Max(b.corner1.lng, b.corner2.lng))
  }

  /** Swapping the corners does not change the rectangle. */
  lemma BoundingBoxIgnoresCornerOrder(b: Bounds)
    ensures BoundingBox(Bounds(b.corner2, b.corner1)) == BoundingBox(b)
  {
  }

  /** rtreelib's `Rect.intersection`: `None` when the rectangles are disjoint. */
  function RectIntersection(a: Rect, b: Rect): (r: Option<Rect>)
    ensures r.None? <==> !Overlaps(a, b)
    ensures r.Some? ==> RectWithin(r.value, a) && RectWithin(r.value, b)
    ensures r.Some? && Normalised(a) && Normalised(b) ==> Normalised(r.value)
  {
    if Overlaps(a, b) then
      Some(Rect(Max(a.minLat, b.minLat), Max(a.minLng, b.minLng), Min(a.maxLat, b.maxLat), Min(a.maxLng, b.maxLng)))
    else
      None
  }

  /** The intersection of two overlapping rectangles holds exactly the points
      of both. */
  lemma RectIntersectionExact(a: Rect, b: Rect, lat: real, lng: real)
    requires Overlaps(a, b)
    ensures InClosedRect(lat, lng, RectIntersection(a, b).value) <==> InClosedRect(lat, lng, a) && InClosedRect(lat, lng, b)
  {
  }

  /** The intersection of two corner pairs; when they do not overlap the
      second pair comes back unchanged. */
  function BoundsIntersection(b1: Bounds, b2: Bounds): (r: Bounds)
    ensures !Overlaps(BoundingBox(b1), BoundingBox(b2)) ==> r == b2
    ensures Overlaps(BoundingBox(b1), BoundingBox(b2)) ==>
      && RectWithin(BoundingBox(r), BoundingBox(b1))
      && RectWithin(BoundingBox(r), BoundingBox(b2))
      && r.corner1.lat <= r.corner2.lat && r.corner1.lng <= r.corner2.lng
      && r.corner1.time.None? && r.corner2.time.None?
  {
    var box1 := BoundingBox(b1);
    var box2 := BoundingBox(b2);
    match RectIntersection(box1, box2)
    case None => b2
    case Some(i) => Bounds(CoordsObj(i.minLat, i.minLng, None), CoordsObj(i.maxLat, i.maxLng, None))
  }

  /** Whatever happens, the result lies inside the second operand: the
      fallback returns it, and a real intersection is inside it. */
  lemma BoundsIntersectionWithinSecond(b1: Bounds, b2: Bounds)
    ensures RectWithin(BoundingBox(BoundsIntersection(b1, b2)), BoundingBox(b2))
  {
  }

  /** When the corner pairs overlap, a point lies in the result exactly when
      it lies in both. */
  lemma BoundsIntersectionExact(b1: Bounds, b2: Bounds, lat: real, lng: real)
    requires Overlaps(BoundingBox(b1), BoundingBox(b2))
    ensures InClosedRect(lat, lng, BoundingBox(BoundsIntersection(b1, b2)))
      <==> InClosedRect(lat, lng, BoundingBox(b1)) && InClosedRect(lat, lng, BoundingBox(b2))
  {
    RectIntersectionExact(BoundingBox(b1), BoundingBox(b2), lat, lng);
  }

  /** Strict containment on all four sides, corners in any order. */
  function IsPointInBounds(p: Point, b: Bounds): (r: bool)
    ensures r <==> InOpenRect(p.lat, p.lng, BoundingBox(b))
  {
    var minLat := Min(b.corner1.lat, b.corner2.lat);
    var minLng := Min(b.corner1.lng, b.corner2.lng);
    var maxLat := Max(b.corner1.lat, b.corner2.lat);
    var maxLng := Max(b.corner1.lng, b.corner2.lng);
    (p.lat > minLat && maxLat > p.lat) && (p.lng > minLng && maxLng > p.lng)
  }

  /** A point on any of the four edges is not in the bounds. */
  lemma BoundaryExcluded(p: Point, b: Bounds)
    requires p.lat == b.corner1.lat || p.lat == b.corner2.lat || p.lng == b.corner1.lng || p.lng == b.corner2.lng
    ensures !IsPointInBounds(p, b)
  {
  }

  /** The containment test does not depend on the order of the corners. */
  lemma IsPointInBoundsIgnoresCornerOrder(p: Point, b: Bounds)
    ensures IsPointInBounds(p, Bounds(b.corner2, b.corner1)) == IsPointInBounds(p, b)
  {
  }

  /** What `random.random()` returns. */
  type Fraction = u: real | 0.0 <= u < 1.0

  /** `random.uniform(lo, hi)` for the draw `u`: lo + (hi - lo) * u. */
  function Uniform(lo: real, hi: real, u: Fraction): (r: real)
    requires lo <= hi
    ensures lo <= r <= hi
  {
    var w := hi - lo;
    assert 0.0 <= u * w <= w by {
      assert u * w <= 1.0 * w;
    }
    lo + w * u
  }

  /** `random_point_in_bounds`, with the two draws made explicit. */
  function RandomPointInBounds(b: Bounds, u: Fraction, v: Fraction): (p: Point)
    ensures InClosedRect(p.lat, p.lng, BoundingBox(b))
    ensures p.time.None?
  {
    var box := BoundingBox(b);
    CoordsObj(Uniform(box.minLat, box.maxLat, u), Uniform(box.minLng, box.maxLng, v), None)
  }
}
