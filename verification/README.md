# LIFEconverter core in Dafny

LIFEconverter turns a LIFE diary into one GPX track per day. The diary
records where its author was and when. The model covers the three parts of
the converter that do the work:

- **The constraint graph** (`get_locations_max_distance`). Each pair of
  adjacent diary spans that connects two distinct known places is a leg. A
  leg of non-zero duration is an observation of travel time. Observations
  are tallied into both directed edges between their places. Each edge's
  average time times the configured average speed bounds how far apart the
  two places can be. Module `ConstraintGraph`.
- **The bounds engine** (`calculate_location_coords`, `update_LIFE_locations`
  and the rectangle geometry of `utils/bounds.py`). Every place starts with
  a candidate region:
  - a 0.1 km box around its explicit coordinate, when it has one;
  - the configured global bounds, otherwise.

  For a configured number of iterations, each place gets a point: its
  explicit coordinate, or a random point of its region. Each neighbour's
  region is then intersected with the box of radius `max_distance` around
  that point. Subplaces finally take their superplace's point. Modules
  `Geometry` and `BoundsEngine`.
- **Routes and tracks** (`set_api`, `calculate_speed`, `get_route`,
  `get_segments`, `point_gpx`, `segment_gpx`, `to_gpx`, `LIFE_to_gpx`).
  Every leg becomes a route request over its time window. A route is timed
  at the average speed its reported length gives over the window, and its
  last point carries the window's end. Routes are cached and re-timed on a
  repeated request, then written as GPX text. Modules `Routes` and `Track`.

The module `RouteAliasing` models the one place where Python object
identity matters. `get_route` returns the very list it caches, and a later
cache hit re-times that list in place. The rest of the model uses values.
`RouteAliasing` proves that the two agree call by call. It then exhibits a
day on which they do not agree once the day is written (see Findings).

Parameters stand in for things the model does not interpret:

- the trigonometric functions (`Geometry.Trig`);
- the haversine distance (`hav`);
- the routing service (`api`), which gives a parsed response per coordinate
  pair;
- the random draws (`rng`, the pair of `random.random()` values for the n-th
  sampled point);
- the text formatting of numbers and timestamps (`num`, `stamp`).

Four behaviours of the code are easy to misread from its comments and
docstrings. The model follows the code in each:

- The route cache holds ONE destination per origin. `get_route` stores a
  fresh route as `self.routes[start] = {end: ...}`
  (`life_to_track_converter.py:410`), so storing a route for `(a, c)`
  replaces the one for `(a, b)`. A route "calculated previously" (the
  comment at line 349) is found again only while no other destination from
  the same origin has been routed since.
- The docstring of `calculate_location_coords` (lines 128-131) says that
  explicit coordinates "are used". They are used only inside the
  iterations: every place is reset to `None` first (line 145), so with zero
  iterations no place gets a point, not even one with an explicit
  coordinate (`BoundsEngine.InferCoordinates`).
- The comment at line 136 says that places with explicit coordinates move
  to the top of the list. They do, but in REVERSE order of discovery. The
  loop moves each one to the front of the very list it is iterating over
  (`life_to_track_converter.py:134-139`). `BoundsEngine.OrderLocations`
  follows that loop step by step.
- The resampling test at line 152 is the inverse of the comment beside it
  (Findings). The iterations take the test as a parameter
  (`BoundsEngine.ResampleTest`), so the placement results hold for the test
  as written and for the corrected one alike.

## Model

| member | source | states |
|---|---|---|
| Geometry.CoordsObj | utils/bounds.py:15-28 | The point keeps the given latitude and longitude and carries a time exactly when one is supplied. |
| Geometry.CheckBounds | utils/bounds.py:30-39 | Passes exactly for latitude in [-90, 90] and longitude in [-180, 180] (compared in radians); otherwise fails with "Illegal arguments". |
| Geometry.DistanceTo | utils/bounds.py:41-61 | The distance is zero when the central angle is, and never negative for a non-negative radius and angle. |
| Geometry.DistanceToSymmetric | utils/bounds.py:41-61 | The spherical-law-of-cosines distance does not depend on the order of its two points, for any even cosine. |
| Geometry.DistanceToSelf | utils/bounds.py:41-61 | A point is at distance 0 from itself, given sin²+cos²=1, cos 0 = 1 and acos 1 = 0. |
| Geometry.BoundingLocations | utils/bounds.py:63-100 | Illegal arguments exactly for a negative radius, a negative distance or invalid coordinates. A zero radius divides by zero. A cap reaching a pole gives the full longitude band clipped at the pole. Otherwise a zero cosine at the centre's latitude divides by zero; the latitudes are centre ± distance/radius in degrees, and the longitudes are centre ∓ the half-width asin(sin(d)/cos(lat)), the west one wrapped up by 2π below -180° and the east one wrapped down by 2π above 180°. The corners carry no time. |
| Geometry.BoundingLocationsValidCorners | utils/bounds.py:63-100 | With real trigonometry, every valid centre, non-negative distance and positive radius gives a box whose corners are valid coordinates. |
| Geometry.LongitudeWrapInRange | utils/bounds.py:85-91 | Shifting a longitude by at most π/2 and wrapping once by 2π keeps it within [-180, 180] degrees. |
| Geometry.BoundingLocationsAcrossAntimeridian | utils/bounds.py:88-91 | When the east edge wraps past the 180th meridian, the box read as a plain rectangle no longer contains its own centre. |
| Geometry.BoundingLocationsContainsCentre | utils/bounds.py:63-100 | A box that reaches a pole, or whose longitude corners do not wrap, contains its own centre as a plain rectangle. |
| Geometry.BoundingLocationsCoversCentre | utils/bounds.py:82-91 | Read with the longitude arc running east from the first corner to the second, the box always contains its centre, wrapped or not. |
| Geometry.BoundingBox | utils/bounds.py:102-115 | The rectangle is normalised, contains both corners, and each of its edges is taken from one of the corners. |
| Geometry.BoundingBoxIgnoresCornerOrder | utils/bounds.py:102-115 | Swapping the two corners yields the same rectangle. |
| Geometry.RectIntersection | utils/bounds.py:128 | No intersection exactly when the closed rectangles are disjoint; an intersection lies within both and is normalised when they are. |
| Geometry.RectIntersectionExact | utils/bounds.py:128 | For overlapping rectangles, a point is in the intersection if and only if it is in both. |
| Geometry.BoundsIntersection | utils/bounds.py:117-133 | Disjoint bounds return the second operand unchanged. Otherwise the result lies within both, its corners are ordered min/max, and they carry no time. |
| Geometry.BoundsIntersectionWithinSecond | utils/bounds.py:117-133 | Whatever the inputs, the result lies within the second bounds. |
| Geometry.BoundsIntersectionExact | utils/bounds.py:117-133 | For overlapping bounds, a point is in the result if and only if it is in both operands. |
| Geometry.IsPointInBounds | utils/bounds.py:135-151 | True exactly when the point is strictly inside the normalised rectangle of the bounds. |
| Geometry.BoundaryExcluded | utils/bounds.py:151 | A point on any edge of the bounds is not in them. |
| Geometry.IsPointInBoundsIgnoresCornerOrder | utils/bounds.py:135-151 | The containment test does not depend on the order of the corners. |
| Geometry.Uniform | life_to_track_converter.py:242-243 | A uniform draw between lo and hi lies in [lo, hi]. |
| Geometry.RandomPointInBounds | life_to_track_converter.py:236-245 | The random point lies in the closed rectangle of the bounds and carries no time. |
| ConstraintGraph.Connection | life_to_track_converter.py:72-87 | No leg exactly when the earlier span is a transit, the places repeat, or either place is unknown. A transit span gives its own endpoints and window. Otherwise the leg runs between two distinct named places, from the earlier span's end to the later span's start. |
| ConstraintGraph.Legs | life_to_track_converter.py:68-87 | A day of n spans has at most n-1 legs, and every leg is the connection of some pair of adjacent spans. |
| ConstraintGraph.LegsConcat | life_to_track_converter.py:68-87 | Cutting a day's spans in two splits its legs into those of the first part, then the leg of the two spans at the cut (none when that pair is skipped), then those of the second part; so the legs come in span order. |
| ConstraintGraph.LegsComplete | life_to_track_converter.py:68-87 | Every pair of adjacent spans that is not skipped contributes its leg. |
| ConstraintGraph.Observe | life_to_track_converter.py:89-94 | No observation exactly when the leg starts and ends at the same time. Otherwise its hours are positive and equal to the absolute duration in seconds divided by 3600. |
| ConstraintGraph.LegObservations | life_to_track_converter.py:89-94 | At most one observation per leg. Every leg of non-zero duration is observed, and every observation is the observation of one of the legs. |
| ConstraintGraph.ObservationsContain | life_to_track_converter.py:67-94 | Every observation of one day's legs is an observation of the diary. |
| ConstraintGraph.ConnectionMakesEdge | life_to_track_converter.py:66-123 | Two adjacent spans of a diary day that connect two places over a non-empty window make the edges between those places, in both directions, part of the distance graph. |
| ConstraintGraph.AddDirected | life_to_track_converter.py:97-104 | After one addition the named entry exists and its origin is a key. |
| ConstraintGraph.Accumulate | life_to_track_converter.py:66-116 | The dictionary has no entry exactly when there was no observation. |
| ConstraintGraph.AddDirectedWellFormed | life_to_track_converter.py:97-106 | Adding to one directed entry keeps keys unique, neighbours unique, neighbour lists in step with the entries, and every entry counted at least once. |
| ConstraintGraph.AccumulateWellFormed | life_to_track_converter.py:97-116 | The dictionary built from any observations is well formed in that sense. |
| ConstraintGraph.AddDirectedTally | life_to_track_converter.py:97-106 | One addition increments the count and total time of exactly the entry it names and of no other. |
| ConstraintGraph.AccumulateTally | life_to_track_converter.py:97-116 | The entry from a to b counts every observation from a to b and from b to a, and its total time is the sum of their hours. |
| ConstraintGraph.AccumulateSymmetric | life_to_track_converter.py:97-116 | The entries a→b and b→a exist together and hold the same count and total. |
| ConstraintGraph.AccumulateEntry | life_to_track_converter.py:97-116 | An existing entry is exactly (total hours, number) of the observations between its two places, and that number is at least 1. |
| ConstraintGraph.Finalise | life_to_track_converter.py:118-123 | The finished graph keeps the key and neighbour order, has an edge per entry, and finishes each entry. |
| ConstraintGraph.FinishEdge | life_to_track_converter.py:120-121 | The average time times the count is the total time, and the maximum distance is the average speed times the average time. |
| ConstraintGraph.FinishEdgeNonNegative | life_to_track_converter.py:120-121 | With a non-negative total time and speed, the maximum distance is not negative. |
| ConstraintGraph.FinaliseAccumulate | life_to_track_converter.py:97-123 | The finished graph is well formed. It has an edge a→b exactly when some observation connects a and b, and its edges are symmetric. |
| ConstraintGraph.LocationsMaxDistance | life_to_track_converter.py:60-125 | The distance graph of a diary is well formed, has an edge exactly between observed pairs of places, and its edges are symmetric. |
| ConstraintGraph.LocationsMaxDistanceEdge | life_to_track_converter.py:118-125 | Each edge of the distance graph finishes the tally of the diary's observations for that pair. |
| ConstraintGraph.EdgeIsAverageOfObservations | life_to_track_converter.py:60-125 | Each edge's average time is the mean of the travel times observed in either direction, and its bound is the speed times that mean (non-negative for a non-negative speed). |
| ConstraintGraph.ObservationHoursPositive | life_to_track_converter.py:94 | Positive observations sum to a non-negative total for any pair. |
| ConstraintGraph.LegObservationsPositive | life_to_track_converter.py:89-94 | Every observation of a day's legs has positive hours. |
| ConstraintGraph.ObservationsPositive | life_to_track_converter.py:67-94 | Every observation of the diary has positive hours. |
| BoundsEngine.KnownFirstSnoc | life_to_track_converter.py:137-139 | Reaching one more place moves it to the front when it has an explicit coordinate, and appends it to the rest otherwise. |
| BoundsEngine.KnownFirstPermutation | life_to_track_converter.py:134-139 | The processing order is a permutation of the graph's keys. |
| BoundsEngine.KnownFirstPutsKnownFirst | life_to_track_converter.py:136-139 | Every place with an explicit coordinate comes before every place without one. |
| BoundsEngine.IndexOf | life_to_track_converter.py:139 | The index found holds the element, and no earlier index does. |
| BoundsEngine.NotYetOrdered | life_to_track_converter.py:137-139 | A place not yet reached sits at its own position and is found there first. |
| BoundsEngine.MoveToFront | life_to_track_converter.py:137-139 | One pop/insert step extends the known-first order by the place reached, and leaves the unreached suffix untouched. |
| BoundsEngine.OrderLocations | life_to_track_converter.py:134-139 | The loop that moves each known place to the front of the list it iterates yields known places first, in reverse discovery order. That order is a permutation of the keys. |
| BoundsEngine.InitialCandidates | life_to_track_converter.py:137-145 | Every key gets a region: the 0.1 km box around its explicit coordinate, or the global bounds. The build fails exactly when some explicit coordinate is out of range. |
| BoundsEngine.InitialRegions | life_to_track_converter.py:137-145 | One region per key, the global bounds for each key without an explicit coordinate; fails exactly when some explicit coordinate's box fails. |
| BoundsEngine.ResampleConditionInverted | life_to_track_converter.py:152 | For every assigned point the test as written is the negation of the corrected test. |
| BoundsEngine.ResampleAsWrittenDiscardsInsidePoint | life_to_track_converter.py:152-153 | With the default configured bounds, a point well inside them is redrawn by the test as written and kept by the corrected test. |
| BoundsEngine.Propagate | life_to_track_converter.py:155-157 | Only neighbours' regions change, and each lies within the box of its edge's maximum distance around the origin's point. The pass fails exactly when one of those boxes fails. |
| BoundsEngine.PropagateExact | life_to_track_converter.py:155-157 | With distinct neighbours, each neighbour's new region is exactly its old region intersected with that box. |
| BoundsEngine.ShrinkNeighbours | life_to_track_converter.py:155-157 | The same places keep a region and non-neighbours keep theirs. Each neighbour's region becomes its old region intersected with the box around the point, and the pass fails exactly when a neighbour's box fails. |
| BoundsEngine.Visit | life_to_track_converter.py:148-157 | The visited place gets its explicit coordinate when it has one. Otherwise, under either test, a point the test keeps stays without a draw, and a redraw uses exactly one draw and lands in the closed rectangle of the place's region. The corrected test keeps a point strictly inside its region; the test as written keeps one that is not. No other place's point changes. Each neighbour's region becomes its old region intersected with the box around the new point, and every other region is unchanged. |
| BoundsEngine.Sweep | life_to_track_converter.py:148-157 | After one pass, under either resampling test, every place has a point and every place with an explicit coordinate is on it. |
| BoundsEngine.Iterate | life_to_track_converter.py:147-157 | After at least one iteration, under either test, every place is placed; with none, the positions are unchanged. |
| BoundsEngine.InferCoordinates | life_to_track_converter.py:133-157 | There is one position per graph key. After at least one iteration, under either test, each has a point and each explicit coordinate is kept exactly. With no iteration, none has a point. |
| BoundsEngine.UpdateLifeLocations | life_to_track_converter.py:201-207 | Entries that are not rewritten subplaces are unchanged. Rewritten subplaces are added as keys. The pass succeeds whenever every such subplace's superplace has an entry, and a failure names a superplace without one. |
| BoundsEngine.UpdateTakesSuperplace | life_to_track_converter.py:205-207 | A subplace whose superplace is not itself rewritten ends with the superplace's point. |
| BoundsEngine.CalculateLocationCoords | life_to_track_converter.py:127-159 | The result covers the graph keys plus the rewritten subplaces. Explicit coordinates of places that are not rewritten subplaces are kept after at least one iteration. A subplace whose superplace is not itself rewritten shares the superplace's point, and that superplace is a graph key. |
| Routes.SetApi | life_to_track_converter.py:161-188 | As written: fails exactly when neither key is set. Google Maps is queried exactly when it is preferred and its key is set; the service queried is always sent its own configured key. |
| Routes.SelectApi | life_to_track_converter.py:161-188 | The corrected selection: fails exactly when neither key is set; otherwise the service used has a non-empty key, and it is the preferred service whenever that one's key is set. |
| Routes.SelectApiSingleKey | life_to_track_converter.py:170-188 | With exactly one key set, the corrected selection uses that key's service whatever the preference. |
| Routes.SetApiIgnoresLoneGoogleKey | life_to_track_converter.py:183-188 | The code as written and the corrected selection differ exactly when Google Maps is not preferred, the TomTom key is empty and the Google key is set: the code then queries TomTom with the empty key. |
| Routes.CalculateSpeed | life_to_track_converter.py:247-258 | The speed is zero over an empty window; otherwise the speed times the time is the distance. |
| Routes.Step | life_to_track_converter.py:414-426 | The time between two points is zero when they are zero metres apart and not negative for a non-negative distance and a positive speed. |
| Routes.StepTimesSpeed | life_to_track_converter.py:414-426 | The time between two points, multiplied by the speed, is their distance in metres. |
| Routes.Stamp | life_to_track_converter.py:398-408 | Timing keeps every point's coordinates, starts at the window's start, and gives the last point the window's end. |
| Routes.StampTimeAt | life_to_track_converter.py:398-406 | The i-th point (not the last) is stamped with the start plus the steps along the polyline up to it. |
| Routes.StampTimes | life_to_track_converter.py:398-406 | Every point but the last is stamped with the start plus the steps along the polyline so far. |
| Routes.StampKeepsPolyline | life_to_track_converter.py:398-408 | Timing never moves a point. |
| Routes.PathSecondsTimesSpeed | life_to_track_converter.py:414-426 | The summed step times along a polyline, times the speed, are the polyline's length in metres. |
| Routes.StepsFillWindow | life_to_track_converter.py:392-408 | When the reported length equals the polyline's own length, the steps add up to exactly the window. |
| Routes.TimeRoute | life_to_track_converter.py:392-408 | An empty polyline fails. A zero speed over two or more points fails. Otherwise the route follows the polyline, starts at the window's start and ends at its end, and every point but the last is reached at the start plus the steps along the polyline so far at the window's average speed. |
| Routes.Restamp | life_to_track_converter.py:351-363 | A re-timed stored route keeps its polyline, starts at the new window's start and ends at its end, with every point but the last paced by the stored length over the new window; it fails on a zero speed over two or more points. |
| Routes.Hit | life_to_track_converter.py:350-365 | A hit makes no request. It returns the stored polyline timed for the new window, paced by the stored length, and writes that timing back over the stored entry. |
| Routes.Miss | life_to_track_converter.py:367-412 | A failed request yields no points and leaves the cache alone. A fetched route follows the service's polyline, paced by its reported length over the window, and is stored as the origin's only entry. |
| Routes.GetRoute | life_to_track_converter.py:331-412 | A request is made exactly when the pair is not stored. Every non-empty answer ends at the window's end, and afterwards the pair is stored. |
| Routes.GetRouteKeepsCacheValid | life_to_track_converter.py:350-410 | Stored routes always have a point, so a hit never meets an empty route. |
| Routes.GetRouteFollowsService | life_to_track_converter.py:331-412 | While every stored route is the service's polyline and length from its origin to its stored destination, that stays so after a call, and a non-empty answer is the service's polyline from the start to the end (not the reverse), paced by the service's length over the window. |
| Routes.RepeatedPairUsesCache | life_to_track_converter.py:350-410 | A second window for the same pair makes no request, follows the same polyline, and ends at its own window's end. |
| Track.Locate | life_to_track_converter.py:448-457 | A place without an entry, or whose entry has no point, fails; otherwise the point's coordinates are sent. |
| Track.LegWindow | life_to_track_converter.py:447-460 | The window exists exactly when both endpoints are placed; the origin is looked up first. |
| Track.Moving | life_to_track_converter.py:462-463 | Every kept leg is a leg of the day with non-zero duration, and every such leg is kept. |
| Track.MovingConcat | life_to_track_converter.py:439-466 | The moving legs of two runs of legs are those of the first run followed by those of the second, so the filter keeps the day's order. |
| Track.LegRoute | life_to_track_converter.py:443-467 | An unplaced endpoint fails with a lookup error. A zero-duration leg is skipped. Any other leg is routed, and its route fits its window. |
| Track.LegRouteFollows | life_to_track_converter.py:443-467 | From a cache that follows the service, a leg's route is the service's polyline from the origin's point to the destination's, paced over the leg's window, and the cache handed on still follows the service. |
| Track.Segments | life_to_track_converter.py:439-469 | A routed day has exactly one route per leg of non-zero duration. |
| Track.SegmentsFit | life_to_track_converter.py:439-469 | A day yields one route per leg of non-zero duration, in order, each fitting its leg's window. |
| Track.SegmentsFollow | life_to_track_converter.py:439-469 | From a cache that follows the service, each route of a day is the service's route from its leg's origin to its destination, paced over the leg's window, and the cache handed on still follows the service. |
| Track.SegmentsLocated | life_to_track_converter.py:447-460 | A leg with an unplaced endpoint makes the day fail; when all are placed, only routing can fail. |
| Track.GetSegments | life_to_track_converter.py:428-469 | The routes of a day line up with its moving legs and fit their windows; an unplaced endpoint fails the day. From a cache that follows the service, each route is the service's route between its leg's places and the cache handed on still follows the service. |
| Track.Tabs | life_to_track_converter.py:21-22 | n tab characters. |
| Track.PointGpx | life_to_track_converter.py:471-485 | A point's text starts with three tabs, `<trkpt lat="` and the latitude's text, and ends with `</trkpt>` and a line break. |
| Track.SegmentGpx | life_to_track_converter.py:487-504 | Empty text exactly for an empty route; otherwise one `<trkseg>` element wrapping the points. |
| Track.ToGpx | life_to_track_converter.py:507-530 | Empty text exactly for a day with no routes; otherwise the header, the segments and the footer. |
| Track.SegmentsGpxSkipsEmpty | life_to_track_converter.py:495-496 | Empty routes contribute nothing to the segments' text. |
| Track.ToGpxDropsEmptyRoutes | life_to_track_converter.py:515-530 | Dropping the failed (empty) routes does not change the document while one route is left. A day whose every route failed still gets a document with an empty track. |
| Track.DayGpx | life_to_track_converter.py:507-530 | A day's document is empty exactly when the day has no leg of non-zero duration, and otherwise starts with the day's header; an unplaced endpoint fails. A success is the document of the day's routes together with the cache routing left; a failure is routing's failure. From a cache that follows the service, the document is that of routes following the day's moving legs. |
| Track.Busy | life_to_track_converter.py:535-538 | No more days get a file than the diary has. |
| Track.BusyDays | life_to_track_converter.py:535-538 | The days that get a file are exactly the days naming more than one place. |
| Track.FilesFiled | life_to_track_converter.py:532-538 | The diary's files are one per day naming more than one place, in diary order, each named by its date and empty exactly when the day does not travel. |
| Track.FilesFollow | life_to_track_converter.py:507-538 | From a cache that follows the service, each busy day's file holds the document of routes that follow that day's moving legs, and the cache handed back still follows the service. |
| Track.LifeToGpx | life_to_track_converter.py:532-538 | One file per day naming more than one place, in diary order, named by its date, empty exactly when the day does not travel. The loop's result is the day-by-day reference computation, the route cache handed from each busy day to the next. From a cache that follows the service, every file is the document of routes following its day's moving legs. |
| RouteAliasing.GetRouteShared | life_to_track_converter.py:350-412 | With shared lists, a call keeps every slot pointing to its own list and changes no other list than the one its origin's slot refers to. |
| RouteAliasing.MirrorsRetime | life_to_track_converter.py:355-363 | Re-timing a stored list in place has the effect of overwriting the entry's points, because no other slot refers to that list. |
| RouteAliasing.MirrorsAppend | life_to_track_converter.py:410 | Storing a new list for an origin has the effect of replacing the origin's entry. |
| RouteAliasing.SharedAgreesOnHit | life_to_track_converter.py:350-365 | On a hit, the shared call hands out the list the value call returns, and the two caches keep agreeing. |
| RouteAliasing.SharedAgreesOnMiss | life_to_track_converter.py:367-412 | On a miss, the shared call hands out the list the value call returns, and the two caches keep agreeing. |
| RouteAliasing.SharedAgreesAtCallTime | life_to_track_converter.py:331-412 | At the moment of every call, shared and value semantics return the same route. |
| RouteAliasing.SegmentsShared | life_to_track_converter.py:439-469 | With shared lists, a day's handles keep the store valid. |
| RouteAliasing.DaySegmentsAsWritten | life_to_track_converter.py:515-520 | The day's routes are read through their handles only after the whole day was routed; there is one per handle. |
| RouteAliasing.CommuteShared | life_to_track_converter.py:439-469 | On the commuting day, with shared lists, the first and third trips share one list. |
| RouteAliasing.CommuteValue | life_to_track_converter.py:439-469 | On the commuting day, with value semantics, each trip keeps its own times. |
| RouteAliasing.SharedRouteRetimesEarlierSegment | life_to_track_converter.py:355-363 | As written, the commuting day's first route carries the third trip's times (500 to 600) and does not fit its own leg. The value version carries 100 to 200. |

## Left out

- The HTTP requests, JSON responses, polyline decoding and status checks of `get_route` (lines 367-393) are modelled by the parameter `api`, which gives the parsed polyline and length or a failure. `parse_duration_in_seconds`, `parse_distance_in_metres`, `parse_points` and `parse_coords` are not modelled.
- When a TomTom response has no `status`, its `KeyError` is swallowed by the bare `except: pass` (lines 385-390). The model folds that into `api`'s answer.
- Cache keys are the `"lat,lng"` strings of `parse_coords`. The model keys by the coordinate pair, which assumes two distinct coordinates never print alike.
- Timestamps are exact reals. The `strftime` formatting truncates every intermediate point's time to whole seconds; that is not modelled.
- The spherical distances are not evaluated: `distance_to` is built on uninterpreted trigonometry, and the haversine `distance` (lines 212-234) is the parameter `hav`. Floating point is modelled as exact reals.
- Geometry.BoundingLocations: `asin` is total in the model. In the non-polar branch the ratio stays below 1 with real trigonometry, so Python's domain error cannot occur there.
- Geometry.RectIntersection: rtreelib is not part of this model. Its `intersection` is taken to return `None` exactly for disjoint closed rectangles (touching rectangles overlap).
- `quit()` in `set_api` is modelled as `Failure(NoApiKey)`. The console messages are left out.
- `random.uniform` is `lo + (hi - lo) * u` for a draw `u` in [0, 1). The draws are a parameter, and no distribution is claimed.
- The name and location swaps of `update_LIFE_locations` (lines 209-210) are left out. The shape of those tables belongs to the diary parser, which is not part of this model.
- The side effect `self.locations[start] = None` of `get_locations_max_distance` is left out. `calculate_location_coords` resets every key to `None` before its iterations anyway.
- The diary parser (`life`), `life_generator.py`, argument parsing, configuration loading and file output (`generate_gpx_file`, which writes `to_gpx`'s text to `<date>.gpx`) are left out. `Track.LifeToGpx` returns the (date, text) pairs instead.
- Text formatting of numbers (`str`) and timestamps is a parameter. Track.PointGpx states the fixed start and end of a point's text, not the text of the number and time in between.
- BoundsEngine.InitialRegions states less than the function it wraps: it does not repeat the per-place box of InitialCandidates. Its callers need only the key set.
- ConstraintGraph.Legs states the bound and where each leg comes from. Completeness and order are stated by ConstraintGraph.LegsComplete and ConstraintGraph.LegsConcat.
- Track.LegRoute and Track.Segments state the skip, the failure cases, the fit and the count only. Which places each route connects is stated by Track.LegRouteFollows and Track.SegmentsFollow, for a cache whose stored routes are the service's own answers (an empty cache, as at start-up, is one).
- Routes.Stamp states the first and last times only. The intermediate times are stated by Routes.StampTimes.
- BoundsEngine.Visit does not state which random draw a resampled point uses, only that a redraw consumes exactly one draw and lands in the region. Regions need not shrink from one visit to the next: when a neighbour's region and the new box are disjoint, `bounds_intersection` returns the box itself.
- A box that wraps around the 180th meridian is still read as a plain rectangle by the iterations, as by `is_point_in_bounds`, `bounds_intersection` and `random_point_in_bounds` in the code. The wrap-aware reading (`Geometry.InWrappedBox`) is only used to state what the box was meant to cover; rewriting the intersection and sampling for wrapped boxes has no counterpart in the code.
- Geometry.DistanceTo and Routes.Step state signs and zeros only. Their values depend on the uninterpreted trigonometry and haversine.
- ConstraintGraph.AddDirected and ConstraintGraph.Accumulate state only that entries appear. Counts and total times are stated by ConstraintGraph.AddDirectedTally and ConstraintGraph.AccumulateTally.

## Findings

| source | as written | input that shows it | evidently intended | confidence | as-written member | corrected member |
|---|---|---|---|---|---|---|
| life_to_track_converter.py:152-153 | A place is given a new random point when it has none OR when its current point IS inside its candidate region. | The default bounds (39.038058, -9.377571) to (38.713286, -9.125020) and the current point (38.9, -9.2): the point lies inside, yet it is redrawn. | Redraw only when the point is missing or has left the region, as the comment on that line says. | not executed | BoundsEngine.ResampleAsWrittenDiscardsInsidePoint | BoundsEngine.Visit |
| life_to_track_converter.py:350-365 | `get_route` returns the cached list itself, and a later hit re-times that same list in place. Routes handed out earlier in the day change after the fact. | A day Home→Work 100-200 s, Work→Home 300-400 s, Home→Work 500-600 s. The first segment is written with times 500 and 600. | Each route keeps the times of its own window. | not executed | RouteAliasing.SharedRouteRetimesEarlierSegment | Track.SegmentsFit |
| life_to_track_converter.py:183-188 | With Google Maps not preferred and no TomTom key, the Google key is stored in `self.api_key`, which nothing reads, and the `google_maps_api` flag stays false. | Google Maps not preferred, TomTom key "", Google key "k": every route request goes to TomTom with the empty key. | Fall back to Google Maps by setting the flag, as the comment at line 180 says ("uses Google API key if not"). | not executed | Routes.SetApiIgnoresLoneGoogleKey | Routes.SelectApi |
| utils/bounds.py:84-91 | The longitude corners are wrapped into [-180°, 180°] one by one, so near the 180th meridian the east corner ends up west of the west corner, and the box read as a rectangle lies on the far side of the globe. | Centre (0, 179.99) with a 10 km radius: the east corner wraps to about -179.92, and the rectangle from -179.92 to 179.90 misses 179.99. | The box covers the cap around its centre, the longitude range running east across the meridian. | not executed | Geometry.BoundingLocationsAcrossAntimeridian | Geometry.BoundingLocationsCoversCentre |
