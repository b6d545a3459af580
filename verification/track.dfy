/** Routes of a day and their GPX text (`get_segments`, `point_gpx`,
    `segment_gpx`, `to_gpx` and `LIFE_to_gpx` in
    life_to_track_converter.py).

    Every leg of a day (the connections `ConstraintGraph.Legs` finds) is
    looked up in the inferred locations; a leg of non-zero duration becomes
    a route over its window.  Number and timestamp text are parameters. */
module Track {
  import opened Wrappers
  import opened ConstraintGraph
  import opened BoundsEngine
  import opened Routes

  datatype TrackError =
    | UnknownPlace(name: Place)  // the place has no entry in the locations
    | Unplaced(name: Place)      // the place's entry has no point
    | Route(error: RouteError)

  /** A route request: two coordinates and a time window. */
  datatype Window = Window(start: LatLng, end: LatLng, startT: real, endT: real)

  /** The coordinate sent to the service for a place. */
  function Locate(locs: Positions, name: Place): (r: Result<LatLng, TrackError>)
    ensures name !in locs ==> r == Failure(UnknownPlace(name))
    ensures name in locs && locs[name].None? ==> r == Failure(Unplaced(name))
    ensures r.Success? <==> name in locs && locs[name].Some?
    ensures r.Success? ==> r.value == LatLng(locs[name].value.lat, locs[name].value.lng)
  {
    if name !in locs then Failure(UnknownPlace(name))
    else match locs[name]
      case None => Failure(Unplaced(name))
      case Some(p) => Success(LatLng(p.lat, p.lng))
  }

  /** Both endpoints of a leg have a point. */
  predicate Located(locs: Positions, l: Leg) {
    Locate(locs, l.origin).Success? && Locate(locs, l.destination).Success?
  }

  /** The window of a leg: origin looked up before destination. */
  function LegWindow(locs: Positions, l: Leg): (r: Result<Window, TrackError>)
    ensures r.Success? <==> Located(locs, l)
    ensures r.Failure? && Locate(locs, l.origin).Failure? ==> r == Failure(Locate(locs, l.origin).error)
    ensures r.Success? ==>
      r.value == Window(Locate(locs, l.origin).value, Locate(locs, l.destination).value, l.start as real, l.end as real)
  {
    match Locate(locs, l.origin)
    case Failure(e) => Failure(e)
    case Success(a) =>
      match Locate(locs, l.destination)
      case Failure(e) => Failure(e)
      case Success(b) => Success(Window(a, b, l.start as real, l.end as real))
  }

  /** The legs of non-zero duration, in order. */
  function Moving(legs: seq<Leg>): (m: seq<Leg>)
    ensures |m| <= |legs|
    ensures forall l | l in m :: l in legs && l.start != l.end
    ensures forall l | l in legs && l.start != l.end :: l in m
  {
    if legs == [] then []
    else
      assert forall l | l in legs :: l == legs[0] || l in legs[1..];
      (if legs[0].start != legs[0].end then [legs[0]] else []) + Moving(legs[1..])
  }

  /** Filtering keeps the order of the day: the moving legs of two runs of
      legs are those of the first run followed by those of the second. */
  lemma {:induction false} MovingConcat(a: seq<Leg>, b: seq<Leg>)
    ensures Moving(a + b) == Moving(a) + Moving(b)
    decreases |a|
  {
    if a != [] {
      assert (a + b)[0] == a[0];
      assert (a + b)[1..] == a[1..] + b;
      MovingConcat(a[1..], b);
    } else {
      assert a + b == b;
    }
  }

  /** A route fits a leg's window: its last point carries the window's end
      and, when it has more than one point, its first the window's start. */
  predicate Fits(route: seq<RoutePoint>, l: Leg) {
    route != [] ==>
      && route[|route| - 1].time == l.end as real
      && (|route| >= 2 ==> route[0].time == l.start as real)
  }

  /** A route follows the leg: it is the polyline the service gives from the
      origin's point to the destination's, timed from the leg's start at the
      average speed its reported length gives over the leg's window. */
  predicate Follows(route: seq<RoutePoint>, locs: Positions, l: Leg, api: (LatLng, LatLng) -> Fetch,
                    hav: (LatLng, LatLng) -> real) {
    route != [] ==>
      && Located(locs, l)
      && var a, b := Locate(locs, l.origin).value, Locate(locs, l.destination).value;
         && api(a, b).Fetched?
         && Paced(route, api(a, b).raw, l.start as real, CalculateSpeed(api(a, b).metres, l.end as real - l.start as real), hav)
  }

  /** One iteration of the loop in `get_segments`: the leg's endpoints are looked up
      (also for a zero-duration leg), then a leg of non-zero duration is
      routed over its window; `None` is a skipped leg. */
  function LegRoute(locs: Positions, l: Leg, cache: Cache, api: (LatLng, LatLng) -> Fetch,
                    hav: (LatLng, LatLng) -> real): (r: Result<Option<Lookup>, TrackError>)
    ensures !Located(locs, l) ==> r.Failure? && !r.error.Route?
    ensures Located(locs, l) && l.start == l.end ==> r == Success(None)
    ensures Located(locs, l) && l.start != l.end ==> r.Failure? || r.value.Some?
    ensures r.Failure? && Located(locs, l) ==> r.error.Route?
    ensures r.Success? && r.value.Some? ==> Fits(r.value.value.points, l)
  {
    match LegWindow(locs, l)
    case Failure(e) => Failure(e)
    case Success(w) =>
      if w.startT == w.endT then Success(None)
      else
        match GetRoute(cache, api, hav, w.start, w.end, w.startT, w.endT)
        case Failure(e) => Failure(Route(e))
        case Success(found) => Success(Some(found))
  }

  /** Given a cache that follows the service, a leg's route is the one the
      service gives from the origin's point to the destination's (not the
      reverse), and the cache handed on still follows the service. */
  lemma LegRouteFollows(locs: Positions, l: Leg, cache: Cache, api: (LatLng, LatLng) -> Fetch,
                        hav: (LatLng, LatLng) -> real)
    requires CacheFollows(cache, api)
    ensures var r := LegRoute(locs, l, cache, api, hav);
      r.Success? && r.value.Some? ==> Follows(r.value.value.points, locs, l, api, hav) && CacheFollows(r.value.value.cache, api)
  {
    var w := LegWindow(locs, l);
    if w.Success? && w.value.startT != w.value.endT {
      GetRouteFollowsService(cache, api, hav, w.value.start, w.value.end, w.value.startT, w.value.endT);
    }
  }

  /** The loop of `get_segments` over a day's legs, the cache passing from one
      request to the next. */
  function Segments(locs: Positions, legs: seq<Leg>, cache: Cache, api: (LatLng, LatLng) -> Fetch,
                    hav: (LatLng, LatLng) -> real): (r: Result<(seq<seq<RoutePoint>>, Cache), TrackError>)
    ensures r.Success? ==> |r.value.0| == |Moving(legs)|
    decreases |legs|
  {
    if legs == [] then Success(([], cache))
    else
      match LegRoute(locs, legs[0], cache, api, hav)
      case Failure(e) => Failure(e)
      case Success(None) => Segments(locs, legs[1..], cache, api, hav)
      case Success(Some(found)) =>
        match Segments(locs, legs[1..], found.cache, api, hav)
        case Failure(e) => Failure(e)
        case Success(rest) => Success(([found.points] + rest.0, rest.1))
  }

  /** One route per leg, each fitting its leg's window. */
  predicate AllFit(segs: seq<seq<RoutePoint>>, legs: seq<Leg>) {
    |segs| == |legs| && forall i | 0 <= i < |segs| :: Fits(segs[i], legs[i])
  }

  lemma AllFitCons(route: seq<RoutePoint>, l: Leg, segs: seq<seq<RoutePoint>>, legs: seq<Leg>)
    requires Fits(route, l) && AllFit(segs, legs)
    ensures AllFit([route] + segs, [l] + legs)
  {
    var s', l' := [route] + segs, [l] + legs;
    assert forall i | 1 <= i < |s'| :: s'[i] == segs[i - 1] && l'[i] == legs[i - 1];
  }

  /** The routes of a day line up with its legs of non-zero duration, one
      route per such leg, each fitting its leg's window. */
  lemma {:induction false} SegmentsFit(locs: Positions, legs: seq<Leg>, cache: Cache, api: (LatLng, LatLng) -> Fetch,
                                       hav: (LatLng, LatLng) -> real)
    ensures var r := Segments(locs, legs, cache, api, hav);
      r.Success? ==> AllFit(r.value.0, Moving(legs))
    decreases |legs|
  {
    if legs != [] {
      var l := legs[0];
      match LegRoute(locs, l, cache, api, hav)
      case Failure(e) =>
      case Success(None) =>
        SegmentsFit(locs, legs[1..], cache, api, hav);
        assert Moving(legs) == Moving(legs[1..]);
      case Success(Some(found)) =>
        SegmentsFit(locs, legs[1..], found.cache, api, hav);
        var rest := Segments(locs, legs[1..], found.cache, api, hav);
        if rest.Success? {
          assert Moving(legs) == [l] + Moving(legs[1..]);
          AllFitCons(found.points, l, rest.value.0, Moving(legs[1..]));
        }
    }
  }

  /** One route per leg, each following its leg. */
  predicate AllFollow(segs: seq<seq<RoutePoint>>, legs: seq<Leg>, locs: Positions, api: (LatLng, LatLng) -> Fetch,
                      hav: (LatLng, LatLng) -> real) {
    |segs| == |legs| && forall i | 0 <= i < |segs| :: Follows(segs[i], locs, legs[i], api, hav)
  }

  lemma AllFollowCons(route: seq<RoutePoint>, l: Leg, segs: seq<seq<RoutePoint>>, legs: seq<Leg>, locs: Positions,
                      api: (LatLng, LatLng) -> Fetch, hav: (LatLng, LatLng) -> real)
    requires Follows(route, locs, l, api, hav) && AllFollow(segs, legs, locs, api, hav)
    ensures AllFollow([route] + segs, [l] + legs, locs, api, hav)
  {
    var s', l' := [route] + segs, [l] + legs;
    assert forall i | 1 <= i < |s'| :: s'[i] == segs[i - 1] && l'[i] == legs[i - 1];
  }

  /** Starting from a cache that follows the service, every route of a day
      follows its leg (from the origin's point to the destination's), and
      the cache handed on still follows the service. */
  lemma {:induction false} SegmentsFollow(locs: Positions, legs: seq<Leg>, cache: Cache, api: (LatLng, LatLng) -> Fetch,
                                          hav: (LatLng, LatLng) -> real)
    ensures var r := Segments(locs, legs, cache, api, hav);
      CacheFollows(cache, api) && r.Success? ==> AllFollow(r.value.0, Moving(legs), locs, api, hav) && CacheFollows(r.value.1, api)
    decreases |legs|
  {
    if legs != [] && CacheFollows(cache, api) {
      var l := legs[0];
      match LegRoute(locs, l, cache, api, hav)
      case Failure(e) =>
      case Success(None) =>
        SegmentsFollow(locs, legs[1..], cache, api, hav);
        assert Moving(legs) == Moving(legs[1..]);
      case Success(Some(found)) =>
        LegRouteFollows(locs, l, cache, api, hav);
        SegmentsFollow(locs, legs[1..], found.cache, api, hav);
        var rest := Segments(locs, legs[1..], found.cache, api, hav);
        if rest.Success? {
          assert Moving(legs) == [l] + Moving(legs[1..]);
          AllFollowCons(found.points, l, rest.value.0, Moving(legs[1..]), locs, api, hav);
        }
    }
  }

  /** A leg whose place has no coordinates stops the day with a lookup
      error; when every place has coordinates, the only failure is a
      routing one. */
  lemma {:induction false} SegmentsLocated(locs: Positions, legs: seq<Leg>, cache: Cache, api: (LatLng, LatLng) -> Fetch,
                                           hav: (LatLng, LatLng) -> real)
    ensures (exists l | l in legs :: !Located(locs, l)) ==> Segments(locs, legs, cache, api, hav).Failure?
    ensures var r := Segments(locs, legs, cache, api, hav);
      r.Failure? && (forall l | l in legs :: Located(locs, l)) ==> r.error.Route?
    decreases |legs|
  {
    if legs != [] {
      var l := legs[0];
      assert forall x | x in legs :: x == l || x in legs[1..];
      match LegRoute(locs, l, cache, api, hav)
      case Failure(e) =>
      case Success(None) =>
        SegmentsLocated(locs, legs[1..], cache, api, hav);
      case Success(Some(found)) =>
        SegmentsLocated(locs, legs[1..], found.cache, api, hav);
    }
  }

  /** `get_segments`: the routes of one day. */
  function GetSegments(locs: Positions, day: Day, cache: Cache, api: (LatLng, LatLng) -> Fetch,
                       hav: (LatLng, LatLng) -> real): (r: Result<(seq<seq<RoutePoint>>, Cache), TrackError>)
    ensures (exists l | l in Legs(day.spans) :: !Located(locs, l)) ==> r.Failure?
    ensures r.Success? ==> AllFit(r.value.0, Moving(Legs(day.spans)))
    ensures r.Success? && CacheFollows(cache, api) ==>
      AllFollow(r.value.0, Moving(Legs(day.spans)), locs, api, hav) && CacheFollows(r.value.1, api)
  {
    SegmentsLocated(locs, Legs(day.spans), cache, api, hav);
    SegmentsFit(locs, Legs(day.spans), cache, api, hav);
    SegmentsFollow(locs, Legs(day.spans), cache, api, hav);
    Segments(locs, Legs(day.spans), cache, api, hav)
  }

  // ---------------------------------------------------------------------
  // GPX text

  function Tabs(n: nat): (s: string)
    ensures |s| == n && forall i | 0 <= i < n :: s[i] == '\t'
  {
    if n == 0 then "" else "\t" + Tabs(n - 1)
  }

  /** One `<trkpt>` element and its line break. */
  function PointGpx(p: RoutePoint, num: real -> string, stamp: real -> string): (r: string)
    ensures Tabs(3) + "<trkpt lat=\"" + num(p.lat) <= r
    ensures |r| >= 9 && r[|r| - 9..] == "</trkpt>\n"
  {
    Tabs(3) + "<trkpt lat=\"" + num(p.lat) + "\" lon=\"" + num(p.lng) + "\">\n"
    + Tabs(4) + "<time>" + stamp(p.time) + "</time>\n"
    + Tabs(3) + "</trkpt>" + "\n"
  }

  function PointsGpx(ps: seq<RoutePoint>, num: real -> string, stamp: real -> string): string {
    if ps == [] then "" else PointGpx(ps[0], num, stamp) + PointsGpx(ps[1..], num, stamp)
  }

  const SegmentOpen: string := "\t\t<trkseg>\n"
  const SegmentClose: string := "\t\t</trkseg>\n\n"

  /** One `<trkseg>` element; an empty route writes nothing. */
  function SegmentGpx(seg: seq<RoutePoint>, num: real -> string, stamp: real -> string): (r: string)
    ensures r == "" <==> seg == []
    ensures seg != [] ==> r == SegmentOpen + PointsGpx(seg, num, stamp) + SegmentClose
  {
    if |seg| == 0 then "" else SegmentOpen + PointsGpx(seg, num, stamp) + SegmentClose
  }

  function SegmentsGpx(segs: seq<seq<RoutePoint>>, num: real -> string, stamp: real -> string): string {
    if segs == [] then "" else SegmentGpx(segs[0], num, stamp) + SegmentsGpx(segs[1..], num, stamp)
  }

  function Header(date: string): string {
    "<?xml version=\"1.0\" encoding=\"UTF-8\"?>\n"
    + "<!-- " + date + " -->\n"
    + "<gpx xmlns=\"http://www.topografix.com/GPX/1/1\">\n"
    + Tabs(1) + "<trk>\n"
  }

  const Footer: string := "\t</trk>\n</gpx>\n"

  /** The document of a day: empty when the day has no route, otherwise one
      track holding a segment per non-empty route. */
  function ToGpx(date: string, segs: seq<seq<RoutePoint>>, num: real -> string, stamp: real -> string): (r: string)
    ensures r == "" <==> segs == []
    ensures segs != [] ==> r == Header(date) + SegmentsGpx(segs, num, stamp) + Footer
  {
    if |segs| == 0 then "" else Header(date) + SegmentsGpx(segs, num, stamp) + Footer
  }

  /** The routes with at least one point, in order. */
  function NonEmpty(segs: seq<seq<RoutePoint>>): (r: seq<seq<RoutePoint>>)
    ensures forall s | s in r :: s in segs && s != []
  {
    if segs == [] then []
    else (if segs[0] != [] then [segs[0]] else []) + NonEmpty(segs[1..])
  }

  lemma {:induction false} SegmentsGpxSkipsEmpty(segs: seq<seq<RoutePoint>>, num: real -> string, stamp: real -> string)
    ensures SegmentsGpx(segs, num, stamp) == SegmentsGpx(NonEmpty(segs), num, stamp)
    decreases |segs|
  {
    if segs != [] {
      SegmentsGpxSkipsEmpty(segs[1..], num, stamp);
      if segs[0] != [] {
        var ne := NonEmpty(segs);
        assert ne == [segs[0]] + NonEmpty(segs[1..]);
        assert ne[1..] == NonEmpty(segs[1..]);
      } else {
        assert NonEmpty(segs) == NonEmpty(segs[1..]);
      }
    }
  }

  /** A failed route leaves no trace in the document: dropping the empty
      routes changes nothing as long as one route is left, and a day whose
      every route failed still gets a document, with an empty track. */
  lemma ToGpxDropsEmptyRoutes(date: string, segs: seq<seq<RoutePoint>>, num: real -> string, stamp: real -> string)
    ensures NonEmpty(segs) != [] ==> ToGpx(date, segs, num, stamp) == ToGpx(date, NonEmpty(segs), num, stamp)
    ensures segs != [] && NonEmpty(segs) == [] ==> ToGpx(date, segs, num, stamp) == Header(date) + Footer
  {
    SegmentsGpxSkipsEmpty(segs, num, stamp);
    if segs == [] {
      assert NonEmpty(segs) == [];
    } else if NonEmpty(segs) == [] {
      assert SegmentsGpx(NonEmpty(segs), num, stamp) == "";
    }
  }

  /** The day has a leg of non-zero duration, hence at least one route. */
  predicate Travels(day: Day) {
    Moving(Legs(day.spans)) != []
  }

  /** A file that holds the document of some routes following the day's
      moving legs, under the day's date. */
  ghost predicate DocFor(file: (string, string), day: Day, locs: Positions, api: (LatLng, LatLng) -> Fetch,
                         hav: (LatLng, LatLng) -> real, num: real -> string, stamp: real -> string) {
    exists segs :: Documents(file, day, segs, locs, api, hav, num, stamp)
  }

  /** The file holds the document of these routes, which follow the day's moving legs. */
  predicate Documents(file: (string, string), day: Day, segs: seq<seq<RoutePoint>>, locs: Positions, api: (LatLng, LatLng) -> Fetch,
                      hav: (LatLng, LatLng) -> real, num: real -> string, stamp: real -> string) {
    AllFollow(segs, Moving(Legs(day.spans)), locs, api, hav) && file == (day.date, ToGpx(day.date, segs, num, stamp))
  }

  /** `to_gpx`: the routes of a day rendered as one document. */
  method DayGpx(locs: Positions, day: Day, cache: Cache, api: (LatLng, LatLng) -> Fetch,
                hav: (LatLng, LatLng) -> real, num: real -> string, stamp: real -> string)
    returns (r: Result<(string, Cache), TrackError>)
    ensures r.Success? ==> (r.value.0 == "" <==> !Travels(day))
    ensures r.Success? && Travels(day) ==> Header(day.date) <= r.value.0
    ensures (exists l | l in Legs(day.spans) :: !Located(locs, l)) ==> r.Failure?
    ensures var g := GetSegments(locs, day, cache, api, hav);
      r.Success? ==> g.Success? && r.value == (ToGpx(day.date, g.value.0, num, stamp), g.value.1)
    ensures var g := GetSegments(locs, day, cache, api, hav);
      r.Failure? ==> g.Failure? && r.error == g.error
    ensures r.Success? && CacheFollows(cache, api) ==>
      DocFor((day.date, r.value.0), day, locs, api, hav, num, stamp) && CacheFollows(r.value.1, api)
  {
    var found := GetSegments(locs, day, cache, api, hav);
    if found.Failure? {
      return Failure(found.error);
    }
    var doc := ToGpx(day.date, found.value.0, num, stamp);
    if CacheFollows(cache, api) {
      assert Documents((day.date, doc), day, found.value.0, locs, api, hav, num, stamp);
    }
    return Success((doc, found.value.1));
  }

  /** A file written for a day: named by its date, empty exactly when the
      day has no route. */
  predicate Filed(file: (string, string), day: Day) {
    file.0 == day.date && (file.1 == "" <==> !Travels(day))
  }

  /** The days that get a file: those naming more than one place. */
  function Busy(days: seq<Day>): (r: seq<Day>)
    ensures |r| <= |days|
  {
    if days == [] then []
    else Busy(days[..|days| - 1]) + (if |days[|days| - 1].places| > 1 then [days[|days| - 1]] else [])
  }

  /** The days that get a file are exactly the days naming more than one
      place. */
  lemma {:induction false} BusyDays(days: seq<Day>)
    ensures forall d | d in Busy(days) :: d in days && |d.places| > 1
    ensures forall d | d in days && |d.places| > 1 :: d in Busy(days)
    decreases |days|
  {
    if days != [] {
      var init := days[..|days| - 1];
      BusyDays(init);
      assert days == init + [days[|days| - 1]];
    }
  }

  lemma {:induction false} BusyConcat(a: seq<Day>, b: seq<Day>)
    ensures Busy(a + b) == Busy(a) + Busy(b)
    decreases |b|
  {
    if b != [] {
      var b' := b[..|b| - 1];
      assert (a + b)[..|a + b| - 1] == a + b';
      assert b[..|b| - 1] == b';
      BusyConcat(a, b');
    } else {
      assert a + b == a;
    }
  }

  /** The busy days of a diary: its first day if busy, then those of the rest. */
  lemma BusyFront(days: seq<Day>)
    requires days != []
    ensures Busy(days) == (if |days[0].places| > 1 then [days[0]] else []) + Busy(days[1..])
  {
    assert days == [days[0]] + days[1..];
    BusyConcat([days[0]], days[1..]);
    assert [days[0]][..0] == [];
  }

  /** A relation holding pairwise along two sequences still holds after
      a related pair is put in front of both. */
  lemma PairwiseCons<A, B>(p: (A, B) -> bool, x: A, y: B, xs: seq<A>, ys: seq<B>)
    requires p(x, y) && |xs| == |ys| && forall i | 0 <= i < |xs| :: p(xs[i], ys[i])
    ensures forall i | 0 <= i < |xs| + 1 :: p(([x] + xs)[i], ([y] + ys)[i])
  {
    var xs', ys' := [x] + xs, [y] + ys;
    assert forall i | 1 <= i < |xs'| :: xs'[i] == xs[i - 1] && ys'[i] == ys[i - 1];
  }

  /** The files before a later result; a failure stays a failure. */
  function Ahead(files: seq<(string, string)>, later: Result<(seq<(string, string)>, Cache), TrackError>): (r: Result<(seq<(string, string)>, Cache), TrackError>)
    ensures r.Success? <==> later.Success?
    ensures r.Success? ==> |r.value.0| == |files| + |later.value.0|
    ensures r.Success? ==> r.value.0[..|files|] == files && r.value.0[|files|..] == later.value.0 && r.value.1 == later.value.1
  {
    match later
    case Failure(e) => Failure(e)
    case Success(v) => Success((files + v.0, v.1))
  }

  lemma AheadAhead(files: seq<(string, string)>, file: (string, string), later: Result<(seq<(string, string)>, Cache), TrackError>)
    ensures Ahead(files, Ahead([file], later)) == Ahead(files + [file], later)
  {
    if later.Success? {
      assert files + ([file] + later.value.0) == (files + [file]) + later.value.0;
    }
  }

  /** The diary's files computed day by day from the front, the cache of
      each day's routing handed to the next busy day. */
  function Files(locs: Positions, days: seq<Day>, cache: Cache, api: (LatLng, LatLng) -> Fetch,
                 hav: (LatLng, LatLng) -> real, num: real -> string, stamp: real -> string): Result<(seq<(string, string)>, Cache), TrackError>
    decreases |days|
  {
    if days == [] then Success(([], cache))
    else if |days[0].places| <= 1 then Files(locs, days[1..], cache, api, hav, num, stamp)
    else
      match GetSegments(locs, days[0], cache, api, hav)
      case Failure(e) => Failure(e)
      case Success(g) => Ahead([(days[0].date, ToGpx(days[0].date, g.0, num, stamp))], Files(locs, days[1..], g.1, api, hav, num, stamp))
  }

  /** Resuming the diary at day `i` handles that day, then the days after it. */
  lemma FilesStep(locs: Positions, days: seq<Day>, i: nat, c: Cache, api: (LatLng, LatLng) -> Fetch,
                  hav: (LatLng, LatLng) -> real, num: real -> string, stamp: real -> string)
    requires i < |days|
    ensures var later := Files(locs, days[i + 1..], c, api, hav, num, stamp);
      |days[i].places| <= 1 ==> Files(locs, days[i..], c, api, hav, num, stamp) == later
    ensures var g := GetSegments(locs, days[i], c, api, hav);
      |days[i].places| > 1 ==>
        Files(locs, days[i..], c, api, hav, num, stamp) ==
          if g.Failure? then Failure(g.error)
          else Ahead([(days[i].date, ToGpx(days[i].date, g.value.0, num, stamp))], Files(locs, days[i + 1..], g.value.1, api, hav, num, stamp))
  {
    assert days[i..][0] == days[i] && days[i..][1..] == days[i + 1..];
  }

  /** The diary's files are one per busy day, in order, each named by its
      day's date and empty exactly when the day has no route. */
  lemma {:induction false} FilesFiled(locs: Positions, days: seq<Day>, cache: Cache, api: (LatLng, LatLng) -> Fetch,
                                      hav: (LatLng, LatLng) -> real, num: real -> string, stamp: real -> string)
    ensures var r := Files(locs, days, cache, api, hav, num, stamp);
      r.Success? ==> |r.value.0| == |Busy(days)| && forall i | 0 <= i < |r.value.0| :: Filed(r.value.0[i], Busy(days)[i])
    decreases |days|, 1
  {
    if days != [] {
      if |days[0].places| <= 1 {
        BusyFront(days);
        assert Busy(days) == Busy(days[1..]);
        assert Files(locs, days, cache, api, hav, num, stamp) == Files(locs, days[1..], cache, api, hav, num, stamp);
        FilesFiled(locs, days[1..], cache, api, hav, num, stamp);
      } else {
        BusyDayFiled(locs, days, cache, api, hav, num, stamp);
      }
    }
  }

  /** FilesFiled for a diary whose first day is busy. */
  lemma {:induction false} BusyDayFiled(locs: Positions, days: seq<Day>, cache: Cache, api: (LatLng, LatLng) -> Fetch,
                                        hav: (LatLng, LatLng) -> real, num: real -> string, stamp: real -> string)
    requires days != [] && |days[0].places| > 1
    ensures var r := Files(locs, days, cache, api, hav, num, stamp);
      r.Success? ==> |r.value.0| == |Busy(days)| && forall i | 0 <= i < |r.value.0| :: Filed(r.value.0[i], Busy(days)[i])
    decreases |days|, 0
  {
    var d, rest := days[0], days[1..];
    var g := GetSegments(locs, d, cache, api, hav);
    if g.Success? {
      FilesFiled(locs, rest, g.value.1, api, hav, num, stamp);
      var later := Files(locs, rest, g.value.1, api, hav, num, stamp);
      if later.Success? {
        BusyFront(days);
        var file := (d.date, ToGpx(d.date, g.value.0, num, stamp));
        assert Filed(file, d);
        PairwiseCons(Filed, file, d, later.value.0, Busy(rest));
      }
    }
  }

  /** From a cache that follows the service, the diary's files are one per
      busy day, in order, each the document of routes that follow that
      day's moving legs; the cache handed back still follows the service. */
  lemma {:induction false} FilesFollow(locs: Positions, days: seq<Day>, cache: Cache, api: (LatLng, LatLng) -> Fetch,
                                       hav: (LatLng, LatLng) -> real, num: real -> string, stamp: real -> string)
    requires CacheFollows(cache, api)
    ensures var r := Files(locs, days, cache, api, hav, num, stamp);
      r.Success? ==>
        && |r.value.0| == |Busy(days)|
        && (forall i | 0 <= i < |r.value.0| :: DocFor(r.value.0[i], Busy(days)[i], locs, api, hav, num, stamp))
        && CacheFollows(r.value.1, api)
    decreases |days|, 1
  {
    if days == [] {
      return;
    }
    if |days[0].places| <= 1 {
      BusyFront(days);
      assert Busy(days) == Busy(days[1..]);
      assert Files(locs, days, cache, api, hav, num, stamp) == Files(locs, days[1..], cache, api, hav, num, stamp);
      FilesFollow(locs, days[1..], cache, api, hav, num, stamp);
    } else {
      BusyDayFollows(locs, days, cache, api, hav, num, stamp);
    }
  }

  /** FilesFollow for a diary whose first day is busy. */
  lemma {:induction false} BusyDayFollows(locs: Positions, days: seq<Day>, cache: Cache, api: (LatLng, LatLng) -> Fetch,
                                          hav: (LatLng, LatLng) -> real, num: real -> string, stamp: real -> string)
    requires CacheFollows(cache, api) && days != [] && |days[0].places| > 1
    ensures var r := Files(locs, days, cache, api, hav, num, stamp);
      r.Success? ==>
        && |r.value.0| == |Busy(days)|
        && (forall i | 0 <= i < |r.value.0| :: DocFor(r.value.0[i], Busy(days)[i], locs, api, hav, num, stamp))
        && CacheFollows(r.value.1, api)
    decreases |days|, 0
  {
    var d, rest := days[0], days[1..];
    var g := GetSegments(locs, d, cache, api, hav);
    if g.Success? {
      FilesFollow(locs, rest, g.value.1, api, hav, num, stamp);
      var later := Files(locs, rest, g.value.1, api, hav, num, stamp);
      if later.Success? {
        BusyFront(days);
        var file := (d.date, ToGpx(d.date, g.value.0, num, stamp));
        assert Documents(file, d, g.value.0, locs, api, hav, num, stamp);
        var doc := (f, b) => DocFor(f, b, locs, api, hav, num, stamp);
        assert doc(file, d);
        assert forall i | 0 <= i < |later.value.0| :: doc(later.value.0[i], Busy(rest)[i]);
        PairwiseCons(doc, file, d, later.value.0, Busy(rest));
      }
    }
  }

  /** `LIFE_to_gpx`: one (date, document) file per day naming more than one
      place, in diary order, with the route cache shared across days. */
  method LifeToGpx(locs: Positions, days: seq<Day>, cache: Cache, api: (LatLng, LatLng) -> Fetch,
                   hav: (LatLng, LatLng) -> real, num: real -> string, stamp: real -> string)
    returns (r: Result<(seq<(string, string)>, Cache), TrackError>)
    ensures r.Success? ==> |r.value.0| == |Busy(days)|
    ensures r.Success? ==> forall i | 0 <= i < |r.value.0| :: Filed(r.value.0[i], Busy(days)[i])
    ensures r == Files(locs, days, cache, api, hav, num, stamp)
    ensures r.Success? && CacheFollows(cache, api) ==>
      && (forall i | 0 <= i < |r.value.0| :: DocFor(r.value.0[i], Busy(days)[i], locs, api, hav, num, stamp))
      && CacheFollows(r.value.1, api)
  {
    var files: seq<(string, string)> := [];
    var c := cache;
    var i := 0;
    while i < |days|
      invariant 0 <= i <= |days|
      invariant Files(locs, days, cache, api, hav, num, stamp) == Ahead(files, Files(locs, days[i..], c, api, hav, num, stamp))
    {
      FilesStep(locs, days, i, c, api, hav, num, stamp);
      if |days[i].places| > 1 {
        var doc := DayGpx(locs, days[i], c, api, hav, num, stamp);
        if doc.Failure? {
          return Failure(doc.error);
        }
        var file := (days[i].date, doc.value.0);
        AheadAhead(files, file, Files(locs, days[i + 1..], doc.value.1, api, hav, num, stamp));
        files := files + [file];
        c := doc.value.1;
      }
      i := i + 1;
    }
    assert days[|days|..] == [] && files + [] == files;
    r := Success((files, c));
    FilesFiled(locs, days, cache, api, hav, num, stamp);
    if CacheFollows(cache, api) {
      FilesFollow(locs, days, cache, api, hav, num, stamp);
    }
  }
}
