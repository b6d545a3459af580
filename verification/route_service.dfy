/** Route lookup and timing (`set_api`, `calculate_speed`, `get_route` and
    `calculate_time_btwn_points` in life_to_track_converter.py).

    The routing service is a parameter: `api(start, end)` is the response the
    service would give for that pair, already parsed into its polyline and
    its reported length in metres.  The haversine distance in kilometres is a
    parameter too.  Times are UTC seconds; the one-second text formatting of
    timestamps is not modelled.

    The cache keeps, per origin coordinate, ONE destination: storing a route
    replaces whatever the origin held before.  A route is a value here: a
    later cache hit re-times the stored route and returns the new timing
    without touching routes handed out earlier. */
module Routes {
  import opened Wrappers

  /** A coordinate pair as sent to the service (`parse_coords`). */
  datatype LatLng = LatLng(lat: real, lng: real)

  /** A route point with its timestamp. */
  datatype RoutePoint = RoutePoint(lat: real, lng: real, time: real)

  /** `self.routes[start]`: the one destination stored for an origin, its
      timed points and the service's length in metres. */
  datatype CacheEntry = CacheEntry(dest: LatLng, points: seq<RoutePoint>, totalDistance: real)

  type Cache = map<LatLng, CacheEntry>

  /** A service response: a failed status, or a polyline and its length. */
  datatype Fetch = Failed | Fetched(raw: seq<LatLng>, metres: real)

  datatype Provider = GoogleMaps | TomTom

  /** The selected routing service and the key its requests send: each
      service is always queried with its own configured key. */
  datatype Api = Api(provider: Provider, key: string)

  datatype RouteError =
    | NoApiKey    // no key configured: the program quits
    | EmptyRoute  // indexing the last point of an empty polyline
    | ZeroSpeed   // a step between points divided by an average speed of zero

  /** The outcome of a route request: the timed points (empty when the
      service failed), the cache afterwards, and whether the service was
      called. */
  datatype Lookup = Lookup(points: seq<RoutePoint>, cache: Cache, requested: bool)

  /** Selects the service as `set_api` does.  No key at all stops the
      program.  With the Google preference, Google is used when its key is
      set and TomTom otherwise.  Without it, TomTom stays selected in both
      remaining cases: when only the Google key is set, that key is recorded
      in a field no request reads, and the requests go to TomTom with its
      empty key. */
  function SetApi(googleKey: string, tomTomKey: string, preferGoogle: bool): (r: Result<Api, RouteError>)
    ensures r.Failure? <==> googleKey == [] && tomTomKey == []
    ensures r.Failure? ==> r.error == NoApiKey
    ensures r.Success? ==> (r.value.provider == GoogleMaps <==> preferGoogle && googleKey != [])
    ensures r.Success? ==> r.value.key == if r.value.provider == GoogleMaps then googleKey else tomTomKey
  {
    if |googleKey| == 0 && |tomTomKey| == 0 then Failure(NoApiKey)
    else if preferGoogle then
      if |googleKey| > 0 then Success(Api(GoogleMaps, googleKey)) else Success(Api(TomTom, tomTomKey))
    else Success(Api(TomTom, tomTomKey))
  }

  /** The selection the messages of `set_api` announce: the preferred
      service when its key is set, the other one otherwise, so the service
      chosen always has a key. */
  function SelectApi(googleKey: string, tomTomKey: string, preferGoogle: bool): (r: Result<Api, RouteError>)
    ensures r.Failure? <==> googleKey == [] && tomTomKey == []
    ensures r.Failure? ==> r.error == NoApiKey
    ensures r.Success? ==> r.value.key != []
    ensures r.Success? && r.value.provider == GoogleMaps ==> r.value.key == googleKey && (preferGoogle || tomTomKey == [])
    ensures r.Success? && r.value.provider == TomTom ==> r.value.key == tomTomKey && (!preferGoogle || googleKey == [])
  {
    if |googleKey| == 0 && |tomTomKey| == 0 then Failure(NoApiKey)
    else if preferGoogle then
      if |googleKey| > 0 then Success(Api(GoogleMaps, googleKey)) else Success(Api(TomTom, tomTomKey))
    else
      if |tomTomKey| > 0 then Success(Api(TomTom, tomTomKey)) else Success(Api(GoogleMaps, googleKey))
  }

  /** The service with a key is always chosen when only one key is set,
      whatever the preference. */
  lemma SelectApiSingleKey(googleKey: string, tomTomKey: string, preferGoogle: bool)
    requires (googleKey == []) != (tomTomKey == [])
    ensures SelectApi(googleKey, tomTomKey, preferGoogle).Success?
    ensures SelectApi(googleKey, tomTomKey, preferGoogle).value.provider == if googleKey != [] then GoogleMaps else TomTom
  {
  }

  /** The two selections differ in exactly one case: no Google preference
      and only the Google key set.  There the code queries TomTom with an
      empty key. */
  lemma SetApiIgnoresLoneGoogleKey(googleKey: string, tomTomKey: string, preferGoogle: bool)
    ensures SetApi(googleKey, tomTomKey, preferGoogle) != SelectApi(googleKey, tomTomKey, preferGoogle)
      <==> !preferGoogle && tomTomKey == [] && googleKey != []
    ensures !preferGoogle && tomTomKey == [] && googleKey != [] ==>
      && SetApi(googleKey, tomTomKey, preferGoogle) == Success(Api(TomTom, []))
      && SelectApi(googleKey, tomTomKey, preferGoogle) == Success(Api(GoogleMaps, googleKey))
  {
  }

  /** Average speed over a window; zero for an empty window. */
  function CalculateSpeed(distance: real, time: real): (r: real)
    ensures time == 0.0 ==> r == 0.0
    ensures time != 0.0 ==> r * time == distance
  {
    if time == 0.0 then 0.0 else distance / time
  }

  /** Seconds needed between two points at the average speed, with the
      distance in kilometres and the speed in metres per second. */
  function Step(hav: (LatLng, LatLng) -> real, a: LatLng, b: LatLng, speed: real): (s: real)
    requires speed != 0.0
    ensures hav(a, b) == 0.0 ==> s == 0.0
    ensures hav(a, b) >= 0.0 && speed > 0.0 ==> s >= 0.0
  {
    hav(a, b) * 1000.0 / speed
  }

  /** A step at the average speed covers the hop's distance in metres. */
  lemma StepTimesSpeed(hav: (LatLng, LatLng) -> real, a: LatLng, b: LatLng, speed: real)
    requires speed != 0.0
    ensures Step(hav, a, b, speed) * speed == hav(a, b) * 1000.0
  {
  }

  /** The coordinates of timed points. */
  function Polyline(points: seq<RoutePoint>): seq<LatLng> {
    seq(|points|, i requires 0 <= i < |points| => LatLng(points[i].lat, points[i].lng))
  }

  /** Times a polyline: the first point leaves at `from` and the last point
      carries the window's end time whatever the steps add up to (the times
      in between are stated by `StampTimes`). */
  function Stamp(geom: seq<LatLng>, from: real, endT: real, speed: real, hav: (LatLng, LatLng) -> real): (r: seq<RoutePoint>)
    requires |geom| >= 1
    requires |geom| >= 2 ==> speed != 0.0
    ensures |r| == |geom|
    ensures forall i | 0 <= i < |geom| :: r[i].lat == geom[i].lat && r[i].lng == geom[i].lng
    ensures r[|r| - 1].time == endT
    ensures |geom| >= 2 ==> r[0].time == from
    decreases |geom|
  {
    if |geom| == 1 then [RoutePoint(geom[0].lat, geom[0].lng, endT)]
    else [RoutePoint(geom[0].lat, geom[0].lng, from)] + Stamp(geom[1..], from + Step(hav, geom[0], geom[1], speed), endT, speed, hav)
  }

  /** The steps along a prefix of at least two points: the first step,
      then the steps along the prefix of the rest. */
  lemma PathSecondsPrefix(geom: seq<LatLng>, speed: real, hav: (LatLng, LatLng) -> real, i: nat)
    requires speed != 0.0 && 1 <= i < |geom|
    ensures PathSeconds(geom[..i + 1], speed, hav) == Step(hav, geom[0], geom[1], speed) + PathSeconds(geom[1..][..i], speed, hav)
  {
    var g := geom[..i + 1];
    assert g[0] == geom[0] && g[1] == geom[1];
    assert g[1..] == geom[1..][..i];
  }

  /** The point at index `i` (not the last) is reached after the steps
      along the polyline up to it. */
  lemma {:induction false} StampTimeAt(geom: seq<LatLng>, from: real, endT: real, speed: real,
                                       hav: (LatLng, LatLng) -> real, i: nat)
    requires |geom| >= 2 ==> speed != 0.0
    requires i < |geom| - 1
    ensures Stamp(geom, from, endT, speed, hav)[i].time == from + PathSeconds(geom[..i + 1], speed, hav)
    decreases i
  {
    var step := Step(hav, geom[0], geom[1], speed);
    var r := Stamp(geom, from, endT, speed, hav);
    var rest := Stamp(geom[1..], from + step, endT, speed, hav);
    assert r == [RoutePoint(geom[0].lat, geom[0].lng, from)] + rest;
    if i == 0 {
      assert PathSeconds(geom[..1], speed, hav) == 0.0;
    } else {
      var tail, j := geom[1..], i - 1;
      StampTimeAt(tail, from + step, endT, speed, hav, j);
      assert tail[..j + 1] == tail[..i];
      PathSecondsPrefix(geom, speed, hav, i);
      assert r[i] == rest[j];
    }
  }

  /** Every point but the last is reached after the steps along the
      polyline so far. */
  lemma StampTimes(geom: seq<LatLng>, from: real, endT: real, speed: real, hav: (LatLng, LatLng) -> real)
    requires |geom| >= 1
    requires |geom| >= 2 ==> speed != 0.0
    ensures var r := Stamp(geom, from, endT, speed, hav);
      forall i | 0 <= i < |geom| - 1 :: r[i].time == from + PathSeconds(geom[..i + 1], speed, hav)
  {
    forall i | 0 <= i < |geom| - 1
      ensures Stamp(geom, from, endT, speed, hav)[i].time == from + PathSeconds(geom[..i + 1], speed, hav)
    {
      StampTimeAt(geom, from, endT, speed, hav, i);
    }
  }

  /** Timing never moves a point. */
  lemma StampKeepsPolyline(geom: seq<LatLng>, from: real, endT: real, speed: real, hav: (LatLng, LatLng) -> real)
    requires |geom| >= 1
    requires |geom| >= 2 ==> speed != 0.0
    ensures Polyline(Stamp(geom, from, endT, speed, hav)) == geom
  {
    var r := Stamp(geom, from, endT, speed, hav);
    assert forall i | 0 <= i < |geom| :: Polyline(r)[i] == geom[i];
  }

  /** Sum of the service-distance steps along a polyline, in metres. */
  function PathMetres(geom: seq<LatLng>, hav: (LatLng, LatLng) -> real): real
    decreases |geom|
  {
    if |geom| < 2 then 0.0 else hav(geom[0], geom[1]) * 1000.0 + PathMetres(geom[1..], hav)
  }

  /** Sum of the time steps along a polyline. */
  function PathSeconds(geom: seq<LatLng>, speed: real, hav: (LatLng, LatLng) -> real): real
    requires speed != 0.0
    decreases |geom|
  {
    if |geom| < 2 then 0.0 else Step(hav, geom[0], geom[1], speed) + PathSeconds(geom[1..], speed, hav)
  }

  lemma {:induction false} PathSecondsTimesSpeed(geom: seq<LatLng>, speed: real, hav: (LatLng, LatLng) -> real)
    requires speed != 0.0
    ensures PathSeconds(geom, speed, hav) * speed == PathMetres(geom, hav)
    decreases |geom|
  {
    if |geom| >= 2 {
      PathSecondsTimesSpeed(geom[1..], speed, hav);
      StepTimesSpeed(hav, geom[0], geom[1], speed);
      var s := Step(hav, geom[0], geom[1], speed);
      var rest := PathSeconds(geom[1..], speed, hav);
      calc {
        PathSeconds(geom, speed, hav) * speed;
        (s + rest) * speed;
        s * speed + rest * speed;
        hav(geom[0], geom[1]) * 1000.0 + PathMetres(geom[1..], hav);
      }
    }
  }

  /** When the length the service reports equals the polyline's own length,
      the steps at the average speed add up to exactly the window: the time
      the last point would be reached is the window's end. */
  lemma StepsFillWindow(geom: seq<LatLng>, metres: real, startT: real, endT: real, hav: (LatLng, LatLng) -> real)
    requires metres == PathMetres(geom, hav) && metres != 0.0
    requires startT != endT
    ensures CalculateSpeed(metres, endT - startT) != 0.0
    ensures startT + PathSeconds(geom, CalculateSpeed(metres, endT - startT), hav) == endT
  {
    var speed := CalculateSpeed(metres, endT - startT);
    assert speed * (endT - startT) == metres;
    assert speed != 0.0;
    PathSecondsTimesSpeed(geom, speed, hav);
    var secs := PathSeconds(geom, speed, hav);
    assert secs * speed == (endT - startT) * speed;
    assert (secs - (endT - startT)) * speed == 0.0;
  }

  /** A route whose last point carries the time `t`. */
  predicate EndsAt(points: seq<RoutePoint>, t: real) {
    points != [] && points[|points| - 1].time == t
  }

  /** The points follow `geom` and every one but the last is reached from
      `startT` after the steps along `geom` so far at `speed`. */
  predicate Paced(points: seq<RoutePoint>, geom: seq<LatLng>, startT: real, speed: real, hav: (LatLng, LatLng) -> real) {
    && Polyline(points) == geom
    && (|geom| >= 2 ==> speed != 0.0 && forall i | 0 <= i < |geom| - 1 :: points[i].time == startT + PathSeconds(geom[..i + 1], speed, hav))
  }

  /** Times a polyline over a window at the average speed the service's
      length gives; an empty polyline, or a zero speed over more than one
      point, is an error. */
  function TimeRoute(geom: seq<LatLng>, metres: real, startT: real, endT: real,
                     hav: (LatLng, LatLng) -> real): (r: Result<seq<RoutePoint>, RouteError>)
    ensures geom == [] <==> r == Failure(EmptyRoute)
    ensures r == Failure(ZeroSpeed) <==> |geom| >= 2 && CalculateSpeed(metres, endT - startT) == 0.0
    ensures r.Success? ==> Polyline(r.value) == geom && EndsAt(r.value, endT)
    ensures r.Success? && |geom| >= 2 ==> r.value[0].time == startT
    ensures r.Success? ==> Paced(r.value, geom, startT, CalculateSpeed(metres, endT - startT), hav)
  {
    var speed := CalculateSpeed(metres, endT - startT);
    if |geom| == 0 then Failure(EmptyRoute)
    else if |geom| >= 2 && speed == 0.0 then Failure(ZeroSpeed)
    else
      StampKeepsPolyline(geom, startT, endT, speed, hav);
      StampTimes(geom, startT, endT, speed, hav);
      Success(Stamp(geom, startT, endT, speed, hav))
  }

  /** Re-times a stored route for a new window, as on a cache hit. */
  function Restamp(points: seq<RoutePoint>, totalDistance: real, startT: real, endT: real,
                   hav: (LatLng, LatLng) -> real): (r: Result<seq<RoutePoint>, RouteError>)
    ensures points == [] <==> r == Failure(EmptyRoute)
    ensures r == Failure(ZeroSpeed) <==> |points| >= 2 && CalculateSpeed(totalDistance, endT - startT) == 0.0
    ensures r.Success? ==> Polyline(r.value) == Polyline(points) && EndsAt(r.value, endT)
    ensures r.Success? && |points| >= 2 ==> r.value[0].time == startT
    ensures r.Success? ==> Paced(r.value, Polyline(points), startT, CalculateSpeed(totalDistance, endT - startT), hav)
  {
    TimeRoute(Polyline(points), totalDistance, startT, endT, hav)
  }

  /** The stored route of `start` re-timed for a new window and written
      back over the stored one; the service is not called. */
  function Hit(cache: Cache, hav: (LatLng, LatLng) -> real, start: LatLng, startT: real, endT: real): (r: Result<Lookup, RouteError>)
    requires start in cache
    ensures r.Failure? <==>
      (cache[start].points == [] ||
       (|cache[start].points| >= 2 && CalculateSpeed(cache[start].totalDistance, endT - startT) == 0.0))
    ensures r.Success? ==>
      && !r.value.requested
      && Polyline(r.value.points) == Polyline(cache[start].points)
      && EndsAt(r.value.points, endT)
      && (|r.value.points| >= 2 ==> r.value.points[0].time == startT)
      && Paced(r.value.points, Polyline(cache[start].points), startT, CalculateSpeed(cache[start].totalDistance, endT - startT), hav)
      && r.value.cache == cache[start := cache[start].(points := r.value.points)]
  {
    var entry := cache[start];
    match Restamp(entry.points, entry.totalDistance, startT, endT, hav)
    case Success(ps) => Success(Lookup(ps, cache[start := entry.(points := ps)], false))
    case Failure(e) => Failure(e)
  }

  /** One request to the service; a route it returns is timed over the
      window and stored as the origin's only entry, and a failed request
      yields no points and leaves the cache alone. */
  function Miss(cache: Cache, response: Fetch, hav: (LatLng, LatLng) -> real,
                start: LatLng, end: LatLng, startT: real, endT: real): (r: Result<Lookup, RouteError>)
    ensures response.Failed? ==> r == Success(Lookup([], cache, true))
    ensures response.Fetched? ==>
      (r.Failure? <==>
        (response.raw == [] || (|response.raw| >= 2 && CalculateSpeed(response.metres, endT - startT) == 0.0)))
    ensures response.Fetched? && response.raw == [] ==> r == Failure(EmptyRoute)
    ensures r.Success? && response.Fetched? ==>
      && r.value.requested
      && Polyline(r.value.points) == response.raw
      && EndsAt(r.value.points, endT)
      && (|r.value.points| >= 2 ==> r.value.points[0].time == startT)
      && Paced(r.value.points, response.raw, startT, CalculateSpeed(response.metres, endT - startT), hav)
      && r.value.cache == cache[start := CacheEntry(end, r.value.points, response.metres)]
  {
    match response
    case Failed => Success(Lookup([], cache, true))
    case Fetched(raw, metres) =>
      match TimeRoute(raw, metres, startT, endT, hav)
      case Failure(e) => Failure(e)
      case Success(points) => Success(Lookup(points, cache[start := CacheEntry(end, points, metres)], true))
  }

  /** The route from `start` to `end` over the window `[startT, endT]`: a
      stored route for this exact pair is re-timed, any other pair asks the
      service once. */
  function GetRoute(cache: Cache, api: (LatLng, LatLng) -> Fetch, hav: (LatLng, LatLng) -> real,
                    start: LatLng, end: LatLng, startT: real, endT: real): (r: Result<Lookup, RouteError>)
    ensures start in cache && cache[start].dest == end ==> r == Hit(cache, hav, start, startT, endT)
    ensures !(start in cache && cache[start].dest == end) ==> r == Miss(cache, api(start, end), hav, start, end, startT, endT)
    ensures r.Success? ==> (r.value.requested <==> !(start in cache && cache[start].dest == end))
    ensures r.Success? && r.value.points != [] ==> EndsAt(r.value.points, endT)
    ensures r.Success? && r.value.points != [] ==> start in r.value.cache && r.value.cache[start].dest == end
  {
    if start in cache && cache[start].dest == end then Hit(cache, hav, start, startT, endT)
    else Miss(cache, api(start, end), hav, start, end, startT, endT)
  }

  /** Every stored route has at least one point. */
  ghost predicate CacheValid(cache: Cache) {
    forall k | k in cache :: cache[k].points != []
  }

  /** Requests keep the cache valid, so a hit never meets an empty route. */
  lemma GetRouteKeepsCacheValid(cache: Cache, api: (LatLng, LatLng) -> Fetch, hav: (LatLng, LatLng) -> real,
                                start: LatLng, end: LatLng, startT: real, endT: real)
    requires CacheValid(cache)
    ensures var r := GetRoute(cache, api, hav, start, end, startT, endT);
      && (start in cache && cache[start].dest == end ==> r != Failure(EmptyRoute))
      && (r.Success? ==> CacheValid(r.value.cache))
  {
  }

  /** Every stored route is the service's answer for its origin and stored
      destination: the same polyline and the same length. */
  ghost predicate CacheFollows(cache: Cache, api: (LatLng, LatLng) -> Fetch) {
    forall k | k in cache ::
      && api(k, cache[k].dest).Fetched?
      && Polyline(cache[k].points) == api(k, cache[k].dest).raw
      && cache[k].totalDistance == api(k, cache[k].dest).metres
  }

  /** Whether served from the cache or fetched, a route from `start` to `end`
      follows the polyline the service gives for that pair, timed at the
      average speed of its reported length over the window; the cache keeps
      following the service. */
  lemma GetRouteFollowsService(cache: Cache, api: (LatLng, LatLng) -> Fetch, hav: (LatLng, LatLng) -> real,
                               start: LatLng, end: LatLng, startT: real, endT: real)
    requires CacheFollows(cache, api)
    ensures var r := GetRoute(cache, api, hav, start, end, startT, endT);
      && (r.Success? ==> CacheFollows(r.value.cache, api))
      && (r.Success? && r.value.points != [] ==>
            && api(start, end).Fetched?
            && Paced(r.value.points, api(start, end).raw, startT, CalculateSpeed(api(start, end).metres, endT - startT), hav))
  {
    var r := GetRoute(cache, api, hav, start, end, startT, endT);
    if r.Success? {
      var c := r.value.cache;
      forall k | k in c
        ensures api(k, c[k].dest).Fetched? && Polyline(c[k].points) == api(k, c[k].dest).raw
        ensures c[k].totalDistance == api(k, c[k].dest).metres
      {
        if k != start {
          assert c[k] == cache[k];
        }
      }
    }
  }

  /** Two windows over the same pair: the second is served from the cache
      without a request, follows the same polyline, and each answer carries
      its own window's end time. */
  lemma RepeatedPairUsesCache(cache: Cache, api: (LatLng, LatLng) -> Fetch, hav: (LatLng, LatLng) -> real,
                              start: LatLng, end: LatLng, s1: real, e1: real, s2: real, e2: real)
    requires GetRoute(cache, api, hav, start, end, s1, e1).Success?
    requires GetRoute(cache, api, hav, start, end, s1, e1).value.points != []
    ensures var first := GetRoute(cache, api, hav, start, end, s1, e1).value;
      var second := GetRoute(first.cache, api, hav, start, end, s2, e2);
      && (second.Success? ==> !second.value.requested)
      && (second.Success? ==> Polyline(second.value.points) == Polyline(first.points))
      && (second.Success? ==> EndsAt(second.value.points, e2))
      && EndsAt(first.points, e1)
  {
    var first := GetRoute(cache, api, hav, start, end, s1, e1).value;
    assert start in first.cache && first.cache[start].dest == end && first.cache[start].points == first.points;
  }
}
