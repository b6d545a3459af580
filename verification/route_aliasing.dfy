/** The route cache as `get_route` shares it.

    `get_route` hands out the very list object it stores, and a later cache
    hit for the same pair re-times that object in place.  So the routes of a
    day are references into one store, read only when the day's document is
    written: a route handed out earlier in the day shows the timing of the
    last request that hit it.  `Routes.GetRoute` and `Track.Segments` are the
    value-semantics versions the rest of the model uses. */
module RouteAliasing {
  import opened Wrappers
  import opened ConstraintGraph
  import opened BoundsEngine
  import opened Routes
  import opened Track

  /** The route lists created so far, by reference. */
  type Heap = seq<seq<RoutePoint>>

  /** A cache entry holding a reference to its list. */
  datatype Slot = Slot(dest: LatLng, ref: nat, totalDistance: real)

  datatype Store = Store(heap: Heap, slots: map<LatLng, Slot>)

  /** What `get_route` returns: the empty result of a failed request, or a
      reference to a stored list. */
  datatype Handle = NoRoute | Ref(ref: nat)

  /** Every slot refers to a list of the store, and no two slots share a
      list: each successful request stores a new one. */
  ghost predicate StoreValid(s: Store) {
    && (forall k | k in s.slots :: s.slots[k].ref < |s.heap|)
    && (forall k1, k2 | k1 in s.slots && k2 in s.slots && k1 != k2 :: s.slots[k1].ref != s.slots[k2].ref)
  }

  /** The store holds, entry by entry, what the value cache holds. */
  ghost predicate Mirrors(s: Store, cache: Cache) {
    && StoreValid(s)
    && s.slots.Keys == cache.Keys
    && forall k | k in cache ::
         cache[k] == CacheEntry(s.slots[k].dest, s.heap[s.slots[k].ref], s.slots[k].totalDistance)
  }

  /** The list a handle denotes in a store. */
  function Read(heap: Heap, h: Handle): seq<RoutePoint> {
    if h.Ref? && h.ref < |heap| then heap[h.ref] else []
  }

  /** `get_route` with shared lists: a hit re-times the stored list in place
      and returns a reference to it; a successful miss stores a new list. */
  function GetRouteShared(s: Store, api: (LatLng, LatLng) -> Fetch, hav: (LatLng, LatLng) -> real,
                          start: LatLng, end: LatLng, startT: real, endT: real): (r: Result<(Handle, Store), RouteError>)
    requires StoreValid(s)
    ensures r.Success? ==> StoreValid(r.value.1) && |r.value.1.heap| >= |s.heap|
    ensures r.Success? && r.value.0.Ref? ==> r.value.0.ref < |r.value.1.heap|
    ensures r.Success? ==> forall k | 0 <= k < |s.heap| && !(start in s.slots && s.slots[start].ref == k) ::
      r.value.1.heap[k] == s.heap[k]
  {
    if start in s.slots && s.slots[start].dest == end then
      var slot := s.slots[start];
      match Restamp(s.heap[slot.ref], slot.totalDistance, startT, endT, hav)
      case Success(ps) => Success((Ref(slot.ref), Store(s.heap[slot.ref := ps], s.slots)))
      case Failure(e) => Failure(e)
    else
      match api(start, end)
      case Failed => Success((NoRoute, s))
      case Fetched(raw, metres) =>
        match TimeRoute(raw, metres, startT, endT, hav)
        case Failure(e) => Failure(e)
        case Success(points) => Success((Ref(|s.heap|), Store(s.heap + [points], s.slots[start := Slot(end, |s.heap|, metres)])))
  }

  /** The shared call hands out the list the value call returns, and the two
      caches keep agreeing. */
  ghost predicate Agree(shared: Result<(Handle, Store), RouteError>, value: Result<Lookup, RouteError>) {
    && shared.Success? == value.Success?
    && (shared.Success? && value.Success? ==>
          && Read(shared.value.1.heap, shared.value.0) == value.value.points
          && Mirrors(shared.value.1, value.value.cache))
  }

  /** Re-timing a stored list in place matches overwriting the entry's
      points, because no other slot refers to that list. */
  lemma MirrorsRetime(s: Store, cache: Cache, start: LatLng, ps: seq<RoutePoint>)
    requires Mirrors(s, cache) && start in cache
    ensures Mirrors(Store(s.heap[s.slots[start].ref := ps], s.slots), cache[start := cache[start].(points := ps)])
  {
    var ref := s.slots[start].ref;
    var s' := Store(s.heap[ref := ps], s.slots);
    var c' := cache[start := cache[start].(points := ps)];
    forall k | k in c'
      ensures c'[k] == CacheEntry(s'.slots[k].dest, s'.heap[s'.slots[k].ref], s'.slots[k].totalDistance)
    {
      if k != start {
        assert s.slots[k].ref != ref;
      }
    }
  }

  /** Storing a new list and pointing the origin's slot at it matches
      replacing the origin's entry. */
  lemma MirrorsAppend(s: Store, cache: Cache, start: LatLng, end: LatLng, ps: seq<RoutePoint>, metres: real)
    requires Mirrors(s, cache)
    ensures Mirrors(Store(s.heap + [ps], s.slots[start := Slot(end, |s.heap|, metres)]),
                    cache[start := CacheEntry(end, ps, metres)])
  {
    var s' := Store(s.heap + [ps], s.slots[start := Slot(end, |s.heap|, metres)]);
    var c' := cache[start := CacheEntry(end, ps, metres)];
    forall k | k in c'
      ensures c'[k] == CacheEntry(s'.slots[k].dest, s'.heap[s'.slots[k].ref], s'.slots[k].totalDistance)
    {
    }
  }

  lemma SharedAgreesOnHit(s: Store, cache: Cache, api: (LatLng, LatLng) -> Fetch, hav: (LatLng, LatLng) -> real,
                          start: LatLng, end: LatLng, startT: real, endT: real)
    requires Mirrors(s, cache)
    requires start in cache && cache[start].dest == end
    ensures Agree(GetRouteShared(s, api, hav, start, end, startT, endT), GetRoute(cache, api, hav, start, end, startT, endT))
  {
    var slot := s.slots[start];
    var restamped := Restamp(s.heap[slot.ref], slot.totalDistance, startT, endT, hav);
    assert restamped == Restamp(cache[start].points, cache[start].totalDistance, startT, endT, hav);
    if restamped.Success? {
      MirrorsRetime(s, cache, start, restamped.value);
    }
  }

  lemma SharedAgreesOnMiss(s: Store, cache: Cache, api: (LatLng, LatLng) -> Fetch, hav: (LatLng, LatLng) -> real,
                           start: LatLng, end: LatLng, startT: real, endT: real)
    requires Mirrors(s, cache)
    requires !(start in cache && cache[start].dest == end)
    ensures Agree(GetRouteShared(s, api, hav, start, end, startT, endT), GetRoute(cache, api, hav, start, end, startT, endT))
  {
    match api(start, end)
    case Failed =>
    case Fetched(raw, metres) =>
      var timed := TimeRoute(raw, metres, startT, endT, hav);
      if timed.Success? {
        MirrorsAppend(s, cache, start, end, timed.value, metres);
      }
  }

  /** At the moment of the call the shared version hands out exactly the
      route the value version returns, and the two caches keep agreeing: the
      difference appears only when a handed-out list is read later. */
  lemma SharedAgreesAtCallTime(s: Store, cache: Cache, api: (LatLng, LatLng) -> Fetch, hav: (LatLng, LatLng) -> real,
                               start: LatLng, end: LatLng, startT: real, endT: real)
    requires Mirrors(s, cache)
    ensures var shared := GetRouteShared(s, api, hav, start, end, startT, endT);
      var value := GetRoute(cache, api, hav, start, end, startT, endT);
      && shared.Success? == value.Success?
      && (shared.Success? ==>
            && Read(shared.value.1.heap, shared.value.0) == value.value.points
            && Mirrors(shared.value.1, value.value.cache))
  {
    if start in cache && cache[start].dest == end {
      SharedAgreesOnHit(s, cache, api, hav, start, end, startT, endT);
    } else {
      SharedAgreesOnMiss(s, cache, api, hav, start, end, startT, endT);
    }
  }

  /** `get_segments` with shared lists: the handles of a day's routes. */
  function SegmentsShared(locs: Positions, legs: seq<Leg>, s: Store, api: (LatLng, LatLng) -> Fetch,
                          hav: (LatLng, LatLng) -> real): (r: Result<(seq<Handle>, Store), TrackError>)
    requires StoreValid(s)
    ensures r.Success? ==> StoreValid(r.value.1)
    decreases |legs|
  {
    if legs == [] then Success(([], s))
    else
      match LegWindow(locs, legs[0])
      case Failure(e) => Failure(e)
      case Success(w) =>
        if w.startT == w.endT then SegmentsShared(locs, legs[1..], s, api, hav)
        else
          match GetRouteShared(s, api, hav, w.start, w.end, w.startT, w.endT)
          case Failure(e) => Failure(Route(e))
          case Success(found) =>
            match SegmentsShared(locs, legs[1..], found.1, api, hav)
            case Failure(e) => Failure(e)
            case Success(rest) => Success(([found.0] + rest.0, rest.1))
  }

  /** The routes `to_gpx` writes as the code runs: every handle is read
      after the whole day has been routed. */
  function DaySegmentsAsWritten(locs: Positions, legs: seq<Leg>, s: Store, api: (LatLng, LatLng) -> Fetch,
                                hav: (LatLng, LatLng) -> real): (r: Result<seq<seq<RoutePoint>>, TrackError>)
    requires StoreValid(s)
    ensures r.Success? ==> SegmentsShared(locs, legs, s, api, hav).Success?
    ensures r.Success? ==> |r.value| == |SegmentsShared(locs, legs, s, api, hav).value.0|
  {
    match SegmentsShared(locs, legs, s, api, hav)
    case Failure(e) => Failure(e)
    case Success(found) => Success(seq(|found.0|, i requires 0 <= i < |found.0| => Read(found.1.heap, found.0[i])))
  }

  // ---------------------------------------------------------------------
  // A day that shows the difference

  const Home: LatLng := LatLng(0.0, 0.0)
  const Work: LatLng := LatLng(1.0, 1.0)

  /** Home to work, back home, and to work again. */
  const Commute: seq<Leg> := [Leg("Home", "Work", 100, 200), Leg("Work", "Home", 300, 400), Leg("Home", "Work", 500, 600)]

  const CommuteLocations: Positions :=
    map["Home" := Some(Geometry.Point(0.0, 0.0, None)), "Work" := Some(Geometry.Point(1.0, 1.0, None))]

  /** A service that answers every request with the straight two-point
      polyline, reported as 1000 m long. */
  function StraightApi(a: LatLng, b: LatLng): Fetch {
    Fetched([a, b], 1000.0)
  }

  /** Every hop is 1 km. */
  function UnitHav(a: LatLng, b: LatLng): real {
    1.0
  }

  /** The straight polyline between two points timed over a window of 100
      seconds: 10 m/s, so the second point is reached at the window's end. */
  lemma StraightTimed(a: LatLng, b: LatLng, startT: real, endT: real)
    requires endT - startT == 100.0
    ensures TimeRoute([a, b], 1000.0, startT, endT, UnitHav)
      == Success([RoutePoint(a.lat, a.lng, startT), RoutePoint(b.lat, b.lng, endT)])
  {
    assert CalculateSpeed(1000.0, endT - startT) == 10.0;
    var r := Stamp([a, b], startT, endT, 10.0, UnitHav);
    assert [a, b][1..] == [b];
    assert r == [RoutePoint(a.lat, a.lng, startT), RoutePoint(b.lat, b.lng, endT)];
  }

  /** A request for a new pair over a window of 100 seconds. */
  lemma StraightMiss(cache: Cache, a: LatLng, b: LatLng, startT: real, endT: real)
    requires endT - startT == 100.0
    ensures var points := [RoutePoint(a.lat, a.lng, startT), RoutePoint(b.lat, b.lng, endT)];
      Miss(cache, StraightApi(a, b), UnitHav, a, b, startT, endT)
        == Success(Lookup(points, cache[a := CacheEntry(b, points, 1000.0)], true))
  {
    StraightTimed(a, b, startT, endT);
  }

  /** A stored two-point route re-timed for another window of 100 seconds. */
  lemma StraightRestamp(a: LatLng, b: LatLng, t0: real, t1: real, startT: real, endT: real)
    requires endT - startT == 100.0
    ensures Restamp([RoutePoint(a.lat, a.lng, t0), RoutePoint(b.lat, b.lng, t1)], 1000.0, startT, endT, UnitHav)
      == Success([RoutePoint(a.lat, a.lng, startT), RoutePoint(b.lat, b.lng, endT)])
  {
    assert Polyline([RoutePoint(a.lat, a.lng, t0), RoutePoint(b.lat, b.lng, t1)]) == [a, b];
    StraightTimed(a, b, startT, endT);
  }

  const TripOut: seq<RoutePoint> := [RoutePoint(0.0, 0.0, 100.0), RoutePoint(1.0, 1.0, 200.0)]
  const TripBack: seq<RoutePoint> := [RoutePoint(1.0, 1.0, 300.0), RoutePoint(0.0, 0.0, 400.0)]
  const TripOutAgain: seq<RoutePoint> := [RoutePoint(0.0, 0.0, 500.0), RoutePoint(1.0, 1.0, 600.0)]

  lemma CommuteWindows()
    ensures LegWindow(CommuteLocations, Commute[0]) == Success(Window(Home, Work, 100.0, 200.0))
    ensures LegWindow(CommuteLocations, Commute[1]) == Success(Window(Work, Home, 300.0, 400.0))
    ensures LegWindow(CommuteLocations, Commute[2]) == Success(Window(Home, Work, 500.0, 600.0))
  {
  }

  const Slots1: map<LatLng, Slot> := map[Home := Slot(Work, 0, 1000.0)]
  const Slots2: map<LatLng, Slot> := map[Home := Slot(Work, 0, 1000.0), Work := Slot(Home, 1, 1000.0)]

  /** The handles of the first and the second list stored. */
  const First: Handle := Ref(0)
  const Second: Handle := Ref(1)

  lemma SharedTripOut()
    ensures GetRouteShared(Store([], map[]), StraightApi, UnitHav, Home, Work, 100.0, 200.0)
      == Success((First, Store([TripOut], Slots1)))
  {
    StraightTimed(Home, Work, 100.0, 200.0);
    assert [] + [TripOut] == [TripOut];
  }

  lemma SharedTripBack()
    ensures GetRouteShared(Store([TripOut], Slots1), StraightApi, UnitHav, Work, Home, 300.0, 400.0)
      == Success((Second, Store([TripOut, TripBack], Slots2)))
  {
    StraightTimed(Work, Home, 300.0, 400.0);
    assert [TripOut] + [TripBack] == [TripOut, TripBack];
    assert Slots1[Work := Slot(Home, 1, 1000.0)] == Slots2;
  }

  lemma SharedTripOutAgain()
    ensures GetRouteShared(Store([TripOut, TripBack], Slots2), StraightApi, UnitHav, Home, Work, 500.0, 600.0)
      == Success((First, Store([TripOutAgain, TripBack], Slots2)))
  {
    StraightRestamp(Home, Work, 100.0, 200.0, 500.0, 600.0);
    assert [TripOut, TripBack][0 := TripOutAgain] == [TripOutAgain, TripBack];
  }

  lemma StoreOneValid()
    ensures StoreValid(Store([TripOut], Slots1))
  {
  }

  lemma StoreTwoValid()
    ensures StoreValid(Store([TripOut, TripBack], Slots2))
  {
  }

  lemma StoreRetimedValid()
    ensures StoreValid(Store([TripOutAgain, TripBack], Slots2))
  {
  }

  /** One routed leg followed by the rest of the day, shared version. */
  lemma SharedStep(locs: Positions, legs: seq<Leg>, s: Store, api: (LatLng, LatLng) -> Fetch, hav: (LatLng, LatLng) -> real,
                   w: Window, found: (Handle, Store), rest: (seq<Handle>, Store))
    requires StoreValid(s) && legs != []
    requires LegWindow(locs, legs[0]) == Success(w) && w.startT != w.endT
    requires GetRouteShared(s, api, hav, w.start, w.end, w.startT, w.endT) == Success(found)
    requires StoreValid(found.1)
    requires SegmentsShared(locs, legs[1..], found.1, api, hav) == Success(rest)
    ensures SegmentsShared(locs, legs, s, api, hav) == Success(([found.0] + rest.0, rest.1))
  {
  }

  lemma SharedLast()
    ensures SegmentsShared(CommuteLocations, Commute[2..], Store([TripOut, TripBack], Slots2), StraightApi, UnitHav)
      == Success(([First], Store([TripOutAgain, TripBack], Slots2)))
  {
    var s3 := Store([TripOutAgain, TripBack], Slots2);
    assert Commute[2..][0] == Commute[2] && Commute[2..][1..] == [];
    CommuteWindows();
    SharedTripOutAgain();
    StoreTwoValid();
    StoreRetimedValid();
    SharedStep(CommuteLocations, Commute[2..], Store([TripOut, TripBack], Slots2), StraightApi, UnitHav,
               Window(Home, Work, 500.0, 600.0), (First, s3), ([], s3));
    assert [First] + [] == [First];
  }

  lemma SharedLastTwo()
    ensures SegmentsShared(CommuteLocations, Commute[1..], Store([TripOut], Slots1), StraightApi, UnitHav)
      == Success(([Second, First], Store([TripOutAgain, TripBack], Slots2)))
  {
    var s2 := Store([TripOut, TripBack], Slots2);
    assert Commute[1..][0] == Commute[1] && Commute[1..][1..] == Commute[2..];
    CommuteWindows();
    SharedTripBack();
    SharedLast();
    StoreOneValid();
    StoreTwoValid();
    SharedStep(CommuteLocations, Commute[1..], Store([TripOut], Slots1), StraightApi, UnitHav,
               Window(Work, Home, 300.0, 400.0), (Second, s2), ([First], Store([TripOutAgain, TripBack], Slots2)));
    assert [Second] + [First] == [Second, First];
  }

  /** The shared store over the commuting day: the third trip hits the first
      trip's list and re-times it. */
  lemma CommuteShared()
    ensures SegmentsShared(CommuteLocations, Commute, Store([], map[]), StraightApi, UnitHav)
      == Success(([First, Second, First], Store([TripOutAgain, TripBack], Slots2)))
  {
    var s1 := Store([TripOut], Slots1);
    CommuteWindows();
    SharedTripOut();
    SharedLastTwo();
    StoreOneValid();
    SharedStep(CommuteLocations, Commute, Store([], map[]), StraightApi, UnitHav,
               Window(Home, Work, 100.0, 200.0), (First, s1), ([Second, First], Store([TripOutAgain, TripBack], Slots2)));
    assert [First] + [Second, First] == [First, Second, First];
  }

  const Cache1: Cache := map[Home := CacheEntry(Work, TripOut, 1000.0)]
  const Cache2: Cache := map[Home := CacheEntry(Work, TripOut, 1000.0), Work := CacheEntry(Home, TripBack, 1000.0)]
  const Cache3: Cache := map[Home := CacheEntry(Work, TripOutAgain, 1000.0), Work := CacheEntry(Home, TripBack, 1000.0)]

  lemma ValueTripOut()
    ensures GetRoute(map[], StraightApi, UnitHav, Home, Work, 100.0, 200.0) == Success(Lookup(TripOut, Cache1, true))
  {
    StraightMiss(map[], Home, Work, 100.0, 200.0);
  }

  lemma ValueTripBack()
    ensures GetRoute(Cache1, StraightApi, UnitHav, Work, Home, 300.0, 400.0) == Success(Lookup(TripBack, Cache2, true))
  {
    StraightMiss(Cache1, Work, Home, 300.0, 400.0);
    assert Cache1[Work := CacheEntry(Home, TripBack, 1000.0)] == Cache2;
  }

  lemma ValueTripOutAgain()
    ensures GetRoute(Cache2, StraightApi, UnitHav, Home, Work, 500.0, 600.0) == Success(Lookup(TripOutAgain, Cache3, false))
  {
    StraightRestamp(Home, Work, 100.0, 200.0, 500.0, 600.0);
    assert Cache2[Home := Cache2[Home].(points := TripOutAgain)] == Cache3;
  }

  lemma ValueLegOut()
    ensures LegRoute(CommuteLocations, Commute[0], map[], StraightApi, UnitHav) == Success(Some(Lookup(TripOut, Cache1, true)))
  {
    CommuteWindows();
    ValueTripOut();
  }

  lemma ValueLegBack()
    ensures LegRoute(CommuteLocations, Commute[1], Cache1, StraightApi, UnitHav) == Success(Some(Lookup(TripBack, Cache2, true)))
  {
    CommuteWindows();
    ValueTripBack();
  }

  lemma ValueLegOutAgain()
    ensures LegRoute(CommuteLocations, Commute[2], Cache2, StraightApi, UnitHav) == Success(Some(Lookup(TripOutAgain, Cache3, false)))
  {
    CommuteWindows();
    ValueTripOutAgain();
  }

  /** One routed leg followed by the rest of the day, value version. */
  lemma ValueStep(locs: Positions, legs: seq<Leg>, cache: Cache, api: (LatLng, LatLng) -> Fetch, hav: (LatLng, LatLng) -> real,
                  found: Lookup, rest: (seq<seq<RoutePoint>>, Cache))
    requires legs != []
    requires LegRoute(locs, legs[0], cache, api, hav) == Success(Some(found))
    requires Segments(locs, legs[1..], found.cache, api, hav) == Success(rest)
    ensures Segments(locs, legs, cache, api, hav) == Success(([found.points] + rest.0, rest.1))
  {
  }

  lemma ValueLast()
    ensures Segments(CommuteLocations, Commute[2..], Cache2, StraightApi, UnitHav) == Success(([TripOutAgain], Cache3))
  {
    assert Commute[2..][0] == Commute[2] && Commute[2..][1..] == [];
    ValueLegOutAgain();
    ValueStep(CommuteLocations, Commute[2..], Cache2, StraightApi, UnitHav, Lookup(TripOutAgain, Cache3, false), ([], Cache3));
    assert [TripOutAgain] + [] == [TripOutAgain];
  }

  lemma ValueLastTwo()
    ensures Segments(CommuteLocations, Commute[1..], Cache1, StraightApi, UnitHav) == Success(([TripBack, TripOutAgain], Cache3))
  {
    assert Commute[1..][0] == Commute[1] && Commute[1..][1..] == Commute[2..];
    ValueLegBack();
    ValueLast();
    ValueStep(CommuteLocations, Commute[1..], Cache1, StraightApi, UnitHav, Lookup(TripBack, Cache2, true), ([TripOutAgain], Cache3));
    assert [TripBack] + [TripOutAgain] == [TripBack, TripOutAgain];
  }

  /** The value cache over the commuting day: every trip keeps its own
      times. */
  lemma CommuteValue()
    ensures Segments(CommuteLocations, Commute, map[], StraightApi, UnitHav) == Success(([TripOut, TripBack, TripOutAgain], Cache3))
  {
    ValueLegOut();
    ValueLastTwo();
    ValueStep(CommuteLocations, Commute, map[], StraightApi, UnitHav, Lookup(TripOut, Cache1, true), ([TripBack, TripOutAgain], Cache3));
    assert [TripOut] + [TripBack, TripOutAgain] == [TripOut, TripBack, TripOutAgain];
  }

  /** On the commuting day the code writes the first trip with the third
      trip's times, 500 to 600 instead of 100 to 200, so the written route no
      longer fits its leg; the value version keeps 100 to 200. */
  lemma SharedRouteRetimesEarlierSegment()
    ensures var shared := DaySegmentsAsWritten(CommuteLocations, Commute, Store([], map[]), StraightApi, UnitHav);
      var value := Segments(CommuteLocations, Commute, map[], StraightApi, UnitHav);
      && shared.Success? && value.Success?
      && |shared.value| == 3 && |value.value.0| == 3
      && shared.value[0] == TripOutAgain && !Fits(shared.value[0], Commute[0])
      && value.value.0[0] == TripOut && Fits(value.value.0[0], Commute[0])
  {
    CommuteShared();
    CommuteValue();
    var shared := DaySegmentsAsWritten(CommuteLocations, Commute, Store([], map[]), StraightApi, UnitHav);
    assert shared.value[0] == Read(Store([TripOutAgain, TripBack], Slots2).heap, First);
    assert Commute[0].end as real == 200.0;
  }
}
