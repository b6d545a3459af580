/** Coordinate inference (`calculate_location_coords` and
    `update_LIFE_locations` in life_to_track_converter.py).

    Every place of the constraint graph gets a candidate region: a 0.1 km box
    around its explicit coordinate when the diary gives one, the configured
    global bounds otherwise.  For a configured number of iterations each place
    in turn is given a point (its explicit coordinate, or a random point of
    its region), and the region of each neighbour is intersected with the box
    of radius `max_distance` around that point.  The random source is a
    parameter: draw `n` is the pair of `random.random()` values used for the
    `n`-th sampled point. */
module BoundsEngine {
  import opened Wrappers
  import opened Geometry
  import opened ConstraintGraph

  /** `life.coordinates`: the explicit (lat, lng) of a place. */
  type Coordinates = map<Place, (real, real)>

  /** `self.locations`: a point per place, `None` until one is assigned. */
  type Positions = map<Place, Option<Point>>

  /** `candidate_bounds`. */
  type Candidates = map<Place, Bounds>

  /** Radius of the region around an explicit coordinate, in kilometres. */
  const KnownRadius: real := 0.1

  datatype CoordsError = Geo(error: GeoError) | MissingSuperplace(name: Place)

  // ---------------------------------------------------------------------
  // Processing order

  /** The elements of `s` whose membership in `known` is `keep`, in order. */
  function Select(s: seq<Place>, known: set<Place>, keep: bool): seq<Place> {
    if s == [] then []
    else Select(s[..|s| - 1], known, keep) + (if (s[|s| - 1] in known) == keep then [s[|s| - 1]] else [])
  }

  function Reverse(s: seq<Place>): seq<Place> {
    if s == [] then [] else [s[|s| - 1]] + Reverse(s[..|s| - 1])
  }

  /** The order the in-place moves of `calculate_location_coords` produce:
      each known place is moved to the front when it is reached, so the known
      places end up in reverse discovery order, followed by the others in
      discovery order. */
  function KnownFirst(keys: seq<Place>, known: set<Place>): seq<Place> {
    Reverse(Select(keys, known, true)) + Select(keys, known, false)
  }

  lemma {:induction false} SelectMembers(s: seq<Place>, known: set<Place>, keep: bool)
    ensures forall x | x in Select(s, known, keep) :: x in s && (x in known) == keep
    ensures forall x | x in s && (x in known) == keep :: x in Select(s, known, keep)
  {
    if s != [] {
      SelectMembers(s[..|s| - 1], known, keep);
      assert s == s[..|s| - 1] + [s[|s| - 1]];
    }
  }

  lemma {:induction false} ReverseMultiset(s: seq<Place>)
    ensures multiset(Reverse(s)) == multiset(s)
    ensures |Reverse(s)| == |s|
  {
    if s != [] {
      ReverseMultiset(s[..|s| - 1]);
      assert s == s[..|s| - 1] + [s[|s| - 1]];
    }
  }

  lemma SelectSnoc(s: seq<Place>, x: Place, known: set<Place>, keep: bool)
    ensures Select(s + [x], known, keep) == Select(s, known, keep) + (if (x in known) == keep then [x] else [])
  {
    assert (s + [x])[..|s|] == s;
  }

  lemma ReverseSnoc(s: seq<Place>, x: Place)
    ensures Reverse(s + [x]) == [x] + Reverse(s)
  {
    assert (s + [x])[..|s|] == s;
  }

  /** Moving a newly reached place: a known one goes to the front, any other
      keeps its place after the ones already reached. */
  lemma KnownFirstSnoc(s: seq<Place>, x: Place, known: set<Place>)
    ensures KnownFirst(s + [x], known) == if x in known then [x] + KnownFirst(s, known) else KnownFirst(s, known) + [x]
  {
    SelectSnoc(s, x, known, true);
    SelectSnoc(s, x, known, false);
    if x in known {
      ReverseSnoc(Select(s, known, true), x);
      assert KnownFirst(s + [x], known) == [x] + Reverse(Select(s, known, true)) + Select(s, known, false);
    } else {
      assert Select(s + [x], known, true) == Select(s, known, true);
      assert Select(s + [x], known, false) == Select(s, known, false) + [x];
    }
  }

  lemma {:induction false} SelectSplit(s: seq<Place>, known: set<Place>)
    ensures multiset(Select(s, known, true)) + multiset(Select(s, known, false)) == multiset(s)
  {
    if s != [] {
      var init := s[..|s| - 1];
      var x := s[|s| - 1];
      assert s == init + [x];
      SelectSplit(init, known);
      SelectSnoc(init, x, known, true);
      SelectSnoc(init, x, known, false);
    }
  }

  /** The processing order is a permutation of the graph's keys. */
  lemma KnownFirstPermutation(keys: seq<Place>, known: set<Place>)
    ensures multiset(KnownFirst(keys, known)) == multiset(keys)
    ensures |KnownFirst(keys, known)| == |keys|
  {
    SelectSplit(keys, known);
    ReverseMultiset(Select(keys, known, true));
    assert |multiset(KnownFirst(keys, known))| == |multiset(keys)|;
  }

  /** Every place with an explicit coordinate comes before every place
      without one. */
  lemma KnownFirstPutsKnownFirst(keys: seq<Place>, known: set<Place>)
    ensures forall i, j | 0 <= i < j < |KnownFirst(keys, known)| ::
      KnownFirst(keys, known)[j] in known ==> KnownFirst(keys, known)[i] in known
  {
    var front := Reverse(Select(keys, known, true));
    var back := Select(keys, known, false);
    SelectMembers(keys, known, true);
    SelectMembers(keys, known, false);
    ReverseMultiset(Select(keys, known, true));
    forall i | 0 <= i < |front|
      ensures front[i] in known
    {
      assert front[i] in multiset(Select(keys, known, true));
    }
    forall j | 0 <= j < |back|
      ensures back[j] !in known
    {
      assert back[j] in Select(keys, known, false);
    }
  }

  /** First position of `x` in `s` (`list.index`). */
  function IndexOf(s: seq<Place>, x: Place): (i: nat)
    requires x in s
    ensures i < |s| && s[i] == x
    ensures forall k | 0 <= k < i :: s[k] != x
  {
    if s[0] == x then 0 else 1 + IndexOf(s[1..], x)
  }

  /** A place not yet reached is not among the places already ordered,
      so its first position in the list is its own. */
  lemma NotYetOrdered(keys: seq<Place>, i: nat, known: set<Place>)
    requires NoDup(keys)
    requires i < |keys|
    requires |KnownFirst(keys[..i], known)| == i
    ensures var order := KnownFirst(keys[..i], known) + keys[i..];
      order[i] == keys[i] && IndexOf(order, keys[i]) == i
  {
    var x := keys[i];
    var front := KnownFirst(keys[..i], known);
    var order := front + keys[i..];
    KnownFirstPermutation(keys[..i], known);
    assert x !in multiset(keys[..i]);
    assert x !in front;
    assert order[i] == x;
  }

  /** Cutting the element after `front` out of `front + [x] + rest` and
      putting it at the front. */
  lemma Splice(front: seq<Place>, x: Place, rest: seq<Place>)
    ensures var order := front + [x] + rest;
      order[|front|] == x && [x] + order[..|front|] + order[|front| + 1..] == [x] + front + rest
  {
    var order := front + [x] + rest;
    assert order[..|front|] == front;
    assert order[|front| + 1..] == rest;
  }

  /** One step of the reordering loop: after `i` places the list is the order
      of those places followed by the rest untouched, and moving place `i`
      (when known) from its position `i` to the front extends that. */
  lemma MoveToFront(keys: seq<Place>, i: nat, known: set<Place>)
    requires NoDup(keys)
    requires i < |keys|
    requires |KnownFirst(keys[..i], known)| == i
    ensures var order := KnownFirst(keys[..i], known) + keys[i..];
      && order[i] == keys[i]
      && (keys[i] in known ==>
            && IndexOf(order, keys[i]) == i
            && [keys[i]] + order[..i] + order[i + 1..] == KnownFirst(keys[..i + 1], known) + keys[i + 1..])
      && (keys[i] !in known ==> order == KnownFirst(keys[..i + 1], known) + keys[i + 1..])
  {
    var x := keys[i];
    var front := KnownFirst(keys[..i], known);
    var rest := keys[i + 1..];
    assert keys[..i + 1] == keys[..i] + [x];
    assert keys[i..] == [x] + rest;
    KnownFirstSnoc(keys[..i], x, known);
    NotYetOrdered(keys, i, known);
    Splice(front, x, rest);
    assert front + keys[i..] == front + [x] + rest;
  }

  /** The loop of `calculate_location_coords` that moves each known place to the front of the
      list it is iterating over. */
  method OrderLocations(keys: seq<Place>, known: set<Place>) returns (order: seq<Place>)
    requires NoDup(keys)
    ensures order == KnownFirst(keys, known)
    ensures multiset(order) == multiset(keys)
    ensures forall i, j | 0 <= i < j < |order| :: order[j] in known ==> order[i] in known
  {
    order := keys;
    var i := 0;
    while i < |keys|
      invariant 0 <= i <= |keys|
      invariant order == KnownFirst(keys[..i], known) + keys[i..]
    {
      KnownFirstPermutation(keys[..i], known);
      MoveToFront(keys, i, known);
      var location := order[i];
      if location in known {
        var j := IndexOf(order, location);
        order := [location] + order[..j] + order[j + 1..];
      }
      i := i + 1;
    }
    assert keys[..|keys|] == keys;
    KnownFirstPermutation(keys, known);
    KnownFirstPutsKnownFirst(keys, known);
  }

  // ---------------------------------------------------------------------
  // Regions

  /** The point of an explicit coordinate. */
  function Pin(c: (real, real)): Point {
    CoordsObj(c.0, c.1, None)
  }

  /** The initial region of a place with an explicit coordinate. */
  function KnownRegion(t: Trig, c: (real, real)): Result<Bounds, GeoError> {
    BoundingLocations(t, Pin(c), KnownRadius, EarthRadius)
  }

  /** The initial regions, built in key order; the first explicit coordinate
      that is out of range stops the run. */
  function InitialCandidates(t: Trig, keys: seq<Place>, coords: Coordinates, global: Bounds): (r: Result<Candidates, GeoError>)
    ensures r.Success? ==> r.value.Keys == set k | k in keys
    ensures r.Success? ==> forall k | k in keys && k !in coords :: r.value[k] == global
    ensures r.Success? ==> forall k | k in keys && k in coords :: KnownRegion(t, coords[k]) == Success(r.value[k])
    ensures r.Failure? <==> exists k | k in keys && k in coords :: KnownRegion(t, coords[k]).Failure?
  {
    if keys == [] then Success(map[])
    else
      var k := keys[0];
      var head := if k in coords then KnownRegion(t, coords[k]) else Success(global);
      if head.Failure? then Failure(head.error)
      else
        var rest := InitialCandidates(t, keys[1..], coords, global);
        assert forall x | x in keys :: x == k || x in keys[1..];
        if rest.Failure? then rest
        else Success(rest.value[k := head.value])
  }

  /** `InitialCandidates` as the iterations use it: one region per place,
      the global bounds for every place without an explicit coordinate. */
  method InitialRegions(t: Trig, keys: seq<Place>, coords: Coordinates, global: Bounds)
    returns (r: Result<Candidates, GeoError>)
    ensures r.Success? ==> r.value.Keys == set k | k in keys
    ensures r.Success? ==> forall k | k in keys && k !in coords :: r.value[k] == global
    ensures r.Success? <==> forall k | k in keys && k in coords :: KnownRegion(t, coords[k]).Success?
  {
    r := InitialCandidates(t, keys, coords, global);
  }

  /** The corrected resampling test: draw a new point when there is none yet
      or the current one has left the candidate region. */
  predicate NeedsResample(current: Option<Point>, region: Bounds) {
    current.None? || !IsPointInBounds(current.value, region)
  }

  /** The test as the code writes it: it draws a new point when there is
      none yet or the current one is still INSIDE the region. */
  predicate ResampleAsWritten(current: Option<Point>, region: Bounds) {
    current.None? || IsPointInBounds(current.value, region)
  }

  /** Which of the two tests the iterations apply. */
  datatype ResampleTest = AsWritten | Corrected

  predicate Resample(test: ResampleTest, current: Option<Point>, region: Bounds) {
    match test
    case AsWritten => ResampleAsWritten(current, region)
    case Corrected => NeedsResample(current, region)
  }

  /** The two tests disagree on every assigned point: the code throws away
      exactly the points its comment says to keep, and keeps the ones that
      drifted out. */
  lemma ResampleConditionInverted(p: Point, region: Bounds)
    ensures ResampleAsWritten(Some(p), region) == !NeedsResample(Some(p), region)
  {
  }

  /** A concrete witness with the default configured bounds: a point well
      inside them is redrawn by the code and kept by the corrected test. */
  lemma ResampleAsWrittenDiscardsInsidePoint()
    ensures var region := Bounds(Point(39.038058, -9.377571, None), Point(38.713286, -9.125020, None));
      var p := Point(38.9, -9.2, None);
      ResampleAsWritten(Some(p), region) && !NeedsResample(Some(p), region)
  {
    var region := Bounds(Point(39.038058, -9.377571, None), Point(38.713286, -9.125020, None));
    assert BoundingBox(region) == Rect(38.713286, -9.377571, 39.038058, -9.125020);
  }

  /** The box of radius `distance` km around `p`. */
  function RadiusBox(t: Trig, p: Point, distance: real): Result<Bounds, GeoError> {
    BoundingLocations(t, p, distance, EarthRadius)
  }

  /** The inner loop over `self.distances[origin]`: every neighbour's region
      is intersected with the box around the origin's point. */
  function Propagate(t: Trig, p: Point, origin: Place, dests: seq<Place>, edges: map<(Place, Place), Edge>, cand: Candidates): (r: Result<Candidates, GeoError>)
    requires forall d | d in dests :: (origin, d) in edges && d in cand
    ensures r.Success? ==> r.value.Keys == cand.Keys
    ensures r.Success? ==> forall k | k in cand && k !in dests :: r.value[k] == cand[k]
    ensures r.Success? ==> forall d | d in dests ::
      && RadiusBox(t, p, edges[(origin, d)].maxDistance).Success?
      && RectWithin(BoundingBox(r.value[d]), BoundingBox(RadiusBox(t, p, edges[(origin, d)].maxDistance).value))
    ensures r.Failure? <==> exists d | d in dests :: RadiusBox(t, p, edges[(origin, d)].maxDistance).Failure?
    decreases |dests|
  {
    if dests == [] then Success(cand)
    else
      var d := dests[0];
      assert forall x | x in dests :: x == d || x in dests[1..];
      match RadiusBox(t, p, edges[(origin, d)].maxDistance)
      case Failure(e) => Failure(e)
      case Success(box) =>
        var next := cand[d := BoundsIntersection(cand[d], box)];
        BoundsIntersectionWithinSecond(cand[d], box);
        Propagate(t, p, origin, dests[1..], edges, next)
  }

  /** With no repeated neighbour, each neighbour's region is exactly its old
      region intersected with the box around the origin's point. */
  lemma {:induction false} PropagateExact(t: Trig, p: Point, origin: Place, dests: seq<Place>,
                                          edges: map<(Place, Place), Edge>, cand: Candidates)
    requires forall d | d in dests :: (origin, d) in edges && d in cand
    requires NoDup(dests)
    ensures var r := Propagate(t, p, origin, dests, edges, cand);
      r.Success? ==> forall d | d in dests ::
        r.value[d] == BoundsIntersection(cand[d], RadiusBox(t, p, edges[(origin, d)].maxDistance).value)
    decreases |dests|
  {
    if dests != [] {
      var d := dests[0];
      assert forall x | x in dests :: x == d || x in dests[1..];
      assert d !in dests[1..] && NoDup(dests[1..]);
      var box := RadiusBox(t, p, edges[(origin, d)].maxDistance);
      if box.Success? {
        var next := cand[d := BoundsIntersection(cand[d], box.value)];
        PropagateExact(t, p, origin, dests[1..], edges, next);
      }
    }
  }

  /** `Propagate` as the iterations use it: the same places keep a region,
      the others keep theirs, and each neighbour's region becomes its old
      region intersected with the box around the origin's point. */
  method ShrinkNeighbours(t: Trig, p: Point, origin: Place, dests: seq<Place>, edges: map<(Place, Place), Edge>,
                          cand: Candidates) returns (r: Result<Candidates, GeoError>)
    requires forall d | d in dests :: (origin, d) in edges && d in cand
    requires NoDup(dests)
    ensures r.Success? ==> r.value.Keys == cand.Keys
    ensures r.Success? ==> forall k | k in cand && k !in dests :: r.value[k] == cand[k]
    ensures r.Success? ==> forall x | x in dests ::
      && RadiusBox(t, p, edges[(origin, x)].maxDistance).Success?
      && r.value[x] == BoundsIntersection(cand[x], RadiusBox(t, p, edges[(origin, x)].maxDistance).value)
    ensures r.Failure? <==> exists d | d in dests :: RadiusBox(t, p, edges[(origin, d)].maxDistance).Failure?
  {
    r := Propagate(t, p, origin, dests, edges, cand);
    PropagateExact(t, p, origin, dests, edges, cand);
  }

  // ---------------------------------------------------------------------
  // The iterations

  ghost predicate Placed(pos: Positions, x: Place, coords: Coordinates) {
    x in pos && pos[x].Some? && (x in coords ==> pos[x] == Some(Pin(coords[x])))
  }

  /** The neighbours of a place of a well-formed graph are places with an
      edge from it, each listed once. */
  lemma Neighbours(d: Distances, origin: Place)
    requires DistancesWellFormed(d)
    requires origin in d.order
    ensures origin in d.adj && NoDup(d.adj[origin])
    ensures forall x | x in d.adj[origin] :: (origin, x) in d.edges && x in d.order
  {
  }

  /** The body of the iteration loop for one place: the place gets its point
      (its explicit coordinate, its current point when the test keeps it, or
      draw `n`, which lies in its region), then each neighbour's region is
      intersected with the box around that point. */
  method Visit(t: Trig, d: Distances, coords: Coordinates, test: ResampleTest, origin: Place,
               pos: Positions, cand: Candidates, n: nat, rng: nat -> (Fraction, Fraction))
    returns (r: Result<(Positions, Candidates, nat), GeoError>)
    requires DistancesWellFormed(d)
    requires origin in d.order
    requires pos.Keys == cand.Keys == set k | k in d.order
    ensures r.Success? ==> r.value.0.Keys == r.value.1.Keys == pos.Keys
    ensures r.Success? ==> Placed(r.value.0, origin, coords)
    ensures r.Success? ==> forall x | x in pos && x != origin :: r.value.0[x] == pos[x]
    ensures r.Success? ==> r.value.2 >= n
    ensures r.Success? && origin !in coords && !Resample(test, pos[origin], cand[origin]) ==>
      r.value.0[origin] == pos[origin] && r.value.2 == n
    ensures r.Success? && origin !in coords && Resample(test, pos[origin], cand[origin]) ==>
      && r.value.2 == n + 1
      && InClosedRect(r.value.0[origin].value.lat, r.value.0[origin].value.lng, BoundingBox(cand[origin]))
    ensures r.Success? && test == Corrected && origin !in coords && pos[origin].Some? && IsPointInBounds(pos[origin].value, cand[origin]) ==>
      r.value.0[origin] == pos[origin]
    ensures r.Success? && test == AsWritten && origin !in coords && pos[origin].Some? && !IsPointInBounds(pos[origin].value, cand[origin]) ==>
      r.value.0[origin] == pos[origin]
    ensures r.Success? ==> forall x | x in cand && x !in d.adj[origin] :: r.value.1[x] == cand[x]
    ensures r.Success? ==> forall x | x in d.adj[origin] ::
      && RadiusBox(t, r.value.0[origin].value, d.edges[(origin, x)].maxDistance).Success?
      && r.value.1[x] == BoundsIntersection(cand[x], RadiusBox(t, r.value.0[origin].value, d.edges[(origin, x)].maxDistance).value)
  {
    var p, m := pos, n;
    if origin in coords {
      p := p[origin := Some(Pin(coords[origin]))];
    } else if Resample(test, p[origin], cand[origin]) {
      var (u, v) := rng(m);
      m := m + 1;
      p := p[origin := Some(RandomPointInBounds(cand[origin], u, v))];
    }
    Neighbours(d, origin);
    var next := ShrinkNeighbours(t, p[origin].value, origin, d.adj[origin], d.edges, cand);
    if next.Failure? {
      return Failure(next.error);
    }
    return Success((p, next.value, m));
  }

  /** One pass over all places in processing order. */
  method Sweep(t: Trig, d: Distances, coords: Coordinates, test: ResampleTest, order: seq<Place>,
               pos: Positions, cand: Candidates, draws: nat, rng: nat -> (Fraction, Fraction))
    returns (r: Result<(Positions, Candidates, nat), GeoError>)
    requires DistancesWellFormed(d)
    requires forall x :: x in order <==> x in d.order
    requires pos.Keys == cand.Keys == set k | k in d.order
    ensures r.Success? ==> r.value.0.Keys == r.value.1.Keys == pos.Keys
    ensures r.Success? ==> forall x | x in d.order :: Placed(r.value.0, x, coords)
    ensures r.Success? ==> r.value.2 >= draws
  {
    var p, c, n := pos, cand, draws;
    var j := 0;
    while j < |order|
      invariant 0 <= j <= |order|
      invariant p.Keys == c.Keys == pos.Keys
      invariant n >= draws
      invariant forall k | 0 <= k < j :: Placed(p, order[k], coords)
    {
      var visited := Visit(t, d, coords, test, order[j], p, c, n, rng);
      if visited.Failure? {
        return Failure(visited.error);
      }
      var p' := visited.value.0;
      forall k | 0 <= k < j + 1
        ensures Placed(p', order[k], coords)
      {
        if order[k] != order[j] {
          assert p'[order[k]] == p[order[k]];
        }
      }
      p, c, n := p', visited.value.1, visited.value.2;
      j := j + 1;
    }
    forall x | x in d.order
      ensures Placed(p, x, coords)
    {
      var k := IndexOf(order, x);
    }
    return Success((p, c, n));
  }

  /** `calculate_location_coords` up to its final alias pass.  After at least
      one iteration every place has a point and every place with an explicit
      coordinate sits exactly on it; with no iteration no point is assigned. */
  method InferCoordinates(t: Trig, d: Distances, coords: Coordinates, test: ResampleTest, global: Bounds, iterations: nat,
                          rng: nat -> (Fraction, Fraction))
    returns (r: Result<Positions, GeoError>)
    requires DistancesWellFormed(d)
    ensures r.Success? ==> r.value.Keys == set k | k in d.order
    ensures r.Success? && iterations > 0 ==> forall x | x in r.value :: r.value[x].Some?
    ensures r.Success? && iterations > 0 ==> forall x | x in r.value && x in coords :: r.value[x] == Some(Pin(coords[x]))
    ensures r.Success? && iterations == 0 ==> forall x | x in r.value :: r.value[x].None?
  {
    var keys := set k | k in d.order;
    var order := OrderLocations(d.order, coords.Keys);
    forall x
      ensures x in order <==> x in d.order
    {
      assert x in order <==> x in multiset(order);
      assert x in d.order <==> x in multiset(d.order);
    }
    var init := InitialRegions(t, d.order, coords, global);
    if init.Failure? {
      return Failure(init.error);
    }
    var pos: Positions := map x | x in keys :: None;
    r := Iterate(t, d, coords, test, order, pos, init.value, iterations, rng);
  }

  /** The outer loop: `iterations` passes from no point at all. */
  method Iterate(t: Trig, d: Distances, coords: Coordinates, test: ResampleTest, order: seq<Place>, pos: Positions, cand: Candidates,
                 iterations: nat, rng: nat -> (Fraction, Fraction))
    returns (r: Result<Positions, GeoError>)
    requires DistancesWellFormed(d)
    requires forall x :: x in order <==> x in d.order
    requires pos.Keys == cand.Keys == set k | k in d.order
    requires forall x | x in pos :: pos[x].None?
    ensures r.Success? ==> r.value.Keys == pos.Keys
    ensures r.Success? && iterations > 0 ==> forall x | x in pos :: Placed(r.value, x, coords)
    ensures r.Success? && iterations == 0 ==> r.value == pos
  {
    var p, c := pos, cand;
    var draws: nat := 0;
    var i := 0;
    while i < iterations
      invariant 0 <= i <= iterations
      invariant p.Keys == c.Keys == pos.Keys
      invariant i > 0 ==> forall x | x in pos :: Placed(p, x, coords)
      invariant i == 0 ==> p == pos
    {
      var swept := Sweep(t, d, coords, test, order, p, c, draws, rng);
      if swept.Failure? {
        return Failure(swept.error);
      }
      p, c, draws := swept.value.0, swept.value.1, swept.value.2;
      i := i + 1;
    }
    return Success(p);
  }

  // ---------------------------------------------------------------------
  // Subplaces

  /** The place is listed and is a subplace, so the alias pass rewrites it. */
  predicate Rewritten(x: Place, places: seq<Place>, superplaces: map<Place, Place>) {
    x in places && x in superplaces
  }

  /** The subplace half of `update_LIFE_locations`: in the order of
      `all_places()`, a subplace takes the point of its superplace; a
      superplace with no entry is a `KeyError`. */
  function UpdateLifeLocations(locs: Positions, places: seq<Place>, superplaces: map<Place, Place>): (r: Result<Positions, Place>)
    ensures r.Success? ==> r.value.Keys == locs.Keys + (set x | x in places && x in superplaces)
    ensures r.Success? ==> forall x | x in locs && !Rewritten(x, places, superplaces) :: r.value[x] == locs[x]
    ensures (forall x | Rewritten(x, places, superplaces) :: superplaces[x] in locs) ==> r.Success?
    ensures r.Failure? ==> r.error !in locs
    decreases |places|
  {
    if places == [] then Success(locs)
    else
      var x := places[0];
      assert forall y | y in places :: y == x || y in places[1..];
      if x in superplaces then
        var s := superplaces[x];
        if s in locs then
          UpdateLifeLocations(locs[x := locs[s]], places[1..], superplaces)
        else Failure(s)
      else
        UpdateLifeLocations(locs, places[1..], superplaces)
  }

  /** A subplace whose superplace is not itself rewritten ends up with the
      superplace's point, and that superplace had an entry. */
  lemma {:induction false} UpdateTakesSuperplace(locs: Positions, places: seq<Place>, superplaces: map<Place, Place>)
    ensures var r := UpdateLifeLocations(locs, places, superplaces);
      r.Success? ==> forall x | Rewritten(x, places, superplaces) && !Rewritten(superplaces[x], places, superplaces) ::
        superplaces[x] in locs && r.value[x] == locs[superplaces[x]]
    decreases |places|
  {
    if places != [] {
      var x := places[0];
      assert forall y | y in places :: y == x || y in places[1..];
      if x in superplaces {
        var s := superplaces[x];
        if s in locs {
          UpdateTakesSuperplace(locs[x := locs[s]], places[1..], superplaces);
          assert forall y | Rewritten(y, places[1..], superplaces) && !Rewritten(superplaces[y], places, superplaces) ::
            superplaces[y] != x;
        }
      } else {
        UpdateTakesSuperplace(locs, places[1..], superplaces);
      }
    }
  }

  /** `calculate_location_coords`: the iterations, then the alias pass. */
  method CalculateLocationCoords(t: Trig, d: Distances, coords: Coordinates, test: ResampleTest, global: Bounds, iterations: nat,
                                 rng: nat -> (Fraction, Fraction), places: seq<Place>, superplaces: map<Place, Place>)
    returns (r: Result<Positions, CoordsError>)
    requires DistancesWellFormed(d)
    ensures r.Success? ==> r.value.Keys == (set k | k in d.order) + (set x | x in places && x in superplaces)
    ensures r.Success? && iterations > 0 ==> forall x | x in d.order && x in coords && !Rewritten(x, places, superplaces) ::
      r.value[x] == Some(Pin(coords[x]))
    ensures r.Success? ==> forall x | Rewritten(x, places, superplaces) && !Rewritten(superplaces[x], places, superplaces) ::
      superplaces[x] in d.order && r.value[x] == r.value[superplaces[x]]
  {
    var inferred := InferCoordinates(t, d, coords, test, global, iterations, rng);
    if inferred.Failure? {
      return Failure(Geo(inferred.error));
    }
    var updated := UpdateLifeLocations(inferred.value, places, superplaces);
    UpdateTakesSuperplace(inferred.value, places, superplaces);
    if updated.Failure? {
      return Failure(MissingSuperplace(updated.error));
    }
    return Success(updated.value);
  }
}
