/** The travel-time constraint graph (`get_locations_max_distance` in
    life_to_track_converter.py).

    Adjacent diary spans that connect two distinct known places yield a leg;
    a leg of non-zero duration yields an observation of travel time; every
    observation is tallied into both directed edges between its two places;
    each edge's average time, scaled by the configured maximum average speed,
    becomes the largest distance the two places can be apart. */
module ConstraintGraph {
  import opened Wrappers

  type Place = string

  /** A span's place: one name (empty when unknown) or an explicit transit. */
  datatype PlaceRef = Single(name: Place) | Transit(origin: Place, destination: Place)

  /** A diary span with its UTC start and end, in seconds. */
  datatype Span = Span(place: PlaceRef, start: int, end: int)

  /** A diary day as the parser delivers it; `places` is `day.all_places()`. */
  datatype Day = Day(date: string, spans: seq<Span>, places: set<Place>)

  /** A move between two places over a time window. */
  datatype Leg = Leg(origin: Place, destination: Place, start: int, end: int)

  /** An observed travel time, in hours. */
  datatype Observation = Observation(origin: Place, destination: Place, hours: real)

  /** The accumulated time and number of observations of one directed edge. */
  datatype Tally = Tally(totalTime: real, num: nat)

  /** The dictionary being built: `order` is its key order, `adj[s]` the key
      order of `res[s]`, and `tally[(s, e)]` the entry `res[s][e]`. */
  datatype Graph = Graph(order: seq<Place>, adj: map<Place, seq<Place>>, tally: map<(Place, Place), Tally>)

  /** A finished edge: average time and the distance bound derived from it. */
  datatype Edge = Edge(avgTime: real, maxDistance: real)

  /** `self.distances`: the finished graph, with the same key orders. */
  datatype Distances = Distances(order: seq<Place>, adj: map<Place, seq<Place>>, edges: map<(Place, Place), Edge>)

  predicate NoDup<T(==)>(s: seq<T>) {
    forall i, j :: 0 <= i < j < |s| ==> s[i] != s[j]
  }

  /** The pair of spans is no connection: the earlier one is a transit, both
      name the same place, or either place is unknown. */
  predicate Skips(prev: Span, span: Span) {
    prev.place.Transit? || span.place == prev.place || span.place == Single("") || prev.place == Single("")
  }

  /** The leg two adjacent spans describe: a transit span's own endpoints and
      window, otherwise the gap between the two spans. */
  function Connection(prev: Span, span: Span): (r: Option<Leg>)
    ensures r.None? <==> Skips(prev, span)
    ensures r.Some? && span.place.Transit? ==>
      r.value == Leg(span.place.origin, span.place.destination, span.start, span.end)
    ensures r.Some? && span.place.Single? ==>
      && r.value.origin != r.value.destination
      && r.value.origin != "" && r.value.destination != ""
      && r.value.origin == prev.place.name && r.value.destination == span.place.name
      && r.value.start == prev.end && r.value.end == span.start
  {
    if Skips(prev, span) then None
    else if span.place.Transit? then Some(Leg(span.place.origin, span.place.destination, span.start, span.end))
    else Some(Leg(prev.place.name, span.place.name, prev.end, span.start))
  }

  /** Some pair of adjacent spans has the leg `l` as its connection. */
  ghost predicate Connects(spans: seq<Span>, l: Leg) {
    exists i | 1 <= i < |spans| :: Connection(spans[i - 1], spans[i]) == Some(l)
  }

  /** The legs of a day, in span order. */
  function Legs(spans: seq<Span>): (r: seq<Leg>)
    ensures |spans| >= 1 ==> |r| <= |spans| - 1
    ensures forall l | l in r :: Connects(spans, l)
  {
    if |spans| < 2 then []
    else
      var init := Legs(spans[..|spans| - 1]);
      match Connection(spans[|spans| - 2], spans[|spans| - 1])
      case Some(l) => init + [l]
      case None => init
  }

  /** The leg list a pair of adjacent spans contributes: one leg or none. */
  function Link(prev: Span, span: Span): seq<Leg> {
    match Connection(prev, span)
    case Some(l) => [l]
    case None => []
  }

  lemma LegsSnoc(spans: seq<Span>)
    requires |spans| >= 2
    ensures Legs(spans) == Legs(spans[..|spans| - 1]) + Link(spans[|spans| - 2], spans[|spans| - 1])
  {
  }

  /** Cutting a day's spans in two: the legs of the first part, the leg of
      the two spans at the cut, then the legs of the second part. */
  lemma {:induction false} LegsConcat(a: seq<Span>, b: seq<Span>)
    requires |a| >= 1 && |b| >= 1
    ensures Legs(a + b) == Legs(a) + Link(a[|a| - 1], b[0]) + Legs(b)
    decreases |b|
  {
    var ab := a + b;
    LegsSnoc(ab);
    DropLast(a, b);
    if |b| >= 2 {
      var b' := b[..|b| - 1];
      LegsSnoc(b);
      LegsConcat(a, b');
    }
  }

  /** Dropping the last element of `a + b`, for a non-empty `b`. */
  lemma DropLast<T>(a: seq<T>, b: seq<T>)
    requires |a| >= 1 && |b| >= 1
    ensures (a + b)[..|a + b| - 1] == a + b[..|b| - 1]
    ensures (a + b)[|a + b| - 2] == (if |b| >= 2 then b[|b| - 2] else a[|a| - 1])
    ensures (a + b)[|a + b| - 1] == b[|b| - 1]
    ensures |b| >= 2 ==> b[..|b| - 1][0] == b[0]
  {
  }

  /** Every pair of adjacent spans that is not skipped contributes its leg. */
  lemma {:induction false} LegsComplete(spans: seq<Span>, i: int)
    requires 1 <= i < |spans| && Connection(spans[i - 1], spans[i]).Some?
    ensures Connection(spans[i - 1], spans[i]).value in Legs(spans)
  {
    var a, b := spans[..i], spans[i..];
    assert spans == a + b;
    LegsConcat(a, b);
  }

  function Abs(x: int): nat { if x < 0 then -x else x }

  /** A leg's travel time in hours; a leg whose start equals its end is no
      observation. */
  function Observe(l: Leg): (r: Option<Observation>)
    ensures r.None? <==> l.start == l.end
    ensures r.Some? ==> r.value.origin == l.origin && r.value.destination == l.destination
    ensures r.Some? ==> r.value.hours > 0.0 && r.value.hours * 3600.0 == Abs(l.end - l.start) as real
  {
    if l.start == l.end then None
    else Some(Observation(l.origin, l.destination, Abs(l.end - l.start) as real / 3600.0))
  }

  /** One observation per leg of non-zero duration, and nothing else. */
  function LegObservations(legs: seq<Leg>): (r: seq<Observation>)
    ensures |r| <= |legs|
    ensures forall l | l in legs && l.start != l.end :: Observe(l).value in r
    ensures forall o | o in r :: exists l | l in legs :: Observe(l) == Some(o)
  {
    if legs == [] then []
    else
      var init := LegObservations(legs[..|legs| - 1]);
      match Observe(legs[|legs| - 1])
      case Some(o) => init + [o]
      case None => init
  }

  /** All observations of all days, in diary order. */
  function Observations(days: seq<Day>): seq<Observation> {
    if days == [] then []
    else Observations(days[..|days| - 1]) + LegObservations(Legs(days[|days| - 1].spans))
  }

  /** Every day's observations are among the diary's. */
  lemma {:induction false} ObservationsContain(days: seq<Day>, k: int)
    requires 0 <= k < |days|
    ensures forall o | o in LegObservations(Legs(days[k].spans)) :: o in Observations(days)
    decreases |days|
  {
    if k < |days| - 1 {
      var init := days[..|days| - 1];
      assert init[k] == days[k];
      ObservationsContain(init, k);
    }
  }

  /** Adds one observation to `res[s][e]`, creating the entry (and the key
      `s`) on first sight. */
  function AddDirected(g: Graph, s: Place, e: Place, hours: real): (r: Graph)
    ensures (s, e) in r.tally && s in r.adj
  {
    if s in g.adj then
      if (s, e) in g.tally then
        var prior := g.tally[(s, e)];
        g.(tally := g.tally[(s, e) := Tally(prior.totalTime + hours, prior.num + 1)])
      else
        g.(adj := g.adj[s := g.adj[s] + [e]], tally := g.tally[(s, e) := Tally(hours, 1)])
    else
      g.(order := g.order + [s], adj := g.adj[s := [e]], tally := g.tally[(s, e) := Tally(hours, 1)])
  }

  /** Both directions of one observation, start -> end first. */
  function Record(g: Graph, o: Observation): Graph {
    AddDirected(AddDirected(g, o.origin, o.destination, o.hours), o.destination, o.origin, o.hours)
  }

  /** The dictionary after folding in every observation, in order. */
  function Accumulate(obs: seq<Observation>): (g: Graph)
    ensures g.tally.Keys == {} <==> obs == []
  {
    if obs == [] then Graph([], map[], map[])
    else Record(Accumulate(obs[..|obs| - 1]), obs[|obs| - 1])
  }

  /** The keys are listed once each, every key has its own neighbour order,
      a neighbour is listed exactly when its entry exists, and every entry has
      been observed at least once. */
  ghost predicate WellFormed(g: Graph) {
    && NoDup(g.order)
    && (forall p :: p in g.order <==> p in g.adj)
    && (forall s | s in g.adj :: NoDup(g.adj[s]))
    && (forall s, e | s in g.adj :: e in g.adj[s] <==> (s, e) in g.tally)
    && (forall k | k in g.tally :: k.0 in g.adj && g.tally[k].num >= 1)
  }

  lemma AddDirectedWellFormed(g: Graph, s: Place, e: Place, hours: real)
    requires WellFormed(g)
    ensures WellFormed(AddDirected(g, s, e, hours))
  {
    var g' := AddDirected(g, s, e, hours);
    if s in g.adj {
      if (s, e) !in g.tally {
        assert e !in g.adj[s];
        forall x, y | x in g'.adj
          ensures y in g'.adj[x] <==> (x, y) in g'.tally
        {
          if x != s {
            assert g'.adj[x] == g.adj[x];
          }
        }
      }
    } else {
      assert s !in g.order;
      forall x, y | x in g'.adj
        ensures y in g'.adj[x] <==> (x, y) in g'.tally
      {
        if x != s {
          assert g'.adj[x] == g.adj[x];
          assert (x, y) != (s, e);
        }
      }
    }
  }

  lemma {:induction false} AccumulateWellFormed(obs: seq<Observation>)
    ensures WellFormed(Accumulate(obs))
  {
    if obs != [] {
      var o := obs[|obs| - 1];
      var g := Accumulate(obs[..|obs| - 1]);
      AccumulateWellFormed(obs[..|obs| - 1]);
      AddDirectedWellFormed(g, o.origin, o.destination, o.hours);
      AddDirectedWellFormed(AddDirected(g, o.origin, o.destination, o.hours), o.destination, o.origin, o.hours);
    }
  }

  /** How many observations go from `a` to `b`. */
  function Count(obs: seq<Observation>, a: Place, b: Place): nat {
    if obs == [] then 0
    else Count(obs[..|obs| - 1], a, b) + (if obs[|obs| - 1].origin == a && obs[|obs| - 1].destination == b then 1 else 0)
  }

  /** The total hours of the observations from `a` to `b`. */
  function Hours(obs: seq<Observation>, a: Place, b: Place): real {
    if obs == [] then 0.0
    else Hours(obs[..|obs| - 1], a, b) + (if obs[|obs| - 1].origin == a && obs[|obs| - 1].destination == b then obs[|obs| - 1].hours else 0.0)
  }

  /** An observation from `a` to `b` is counted. */
  lemma {:induction false} CountPositive(obs: seq<Observation>, o: Observation)
    requires o in obs
    ensures Count(obs, o.origin, o.destination) > 0
    decreases |obs|
  {
    if obs[|obs| - 1] != o {
      var init := obs[..|obs| - 1];
      assert obs == init + [obs[|obs| - 1]];
      CountPositive(init, o);
    }
  }

  /** Observations between `a` and `b`, in either direction. */
  function Observed(obs: seq<Observation>, a: Place, b: Place): nat {
    Count(obs, a, b) + Count(obs, b, a)
  }

  /** Their total hours. */
  function ObservedHours(obs: seq<Observation>, a: Place, b: Place): real {
    Hours(obs, a, b) + Hours(obs, b, a)
  }

  function Num(g: Graph, a: Place, b: Place): nat {
    if (a, b) in g.tally then g.tally[(a, b)].num else 0
  }

  function TotalTime(g: Graph, a: Place, b: Place): real {
    if (a, b) in g.tally then g.tally[(a, b)].totalTime else 0.0
  }

  lemma AddDirectedTally(g: Graph, s: Place, e: Place, hours: real, a: Place, b: Place)
    requires WellFormed(g)
    ensures Num(AddDirected(g, s, e, hours), a, b) == Num(g, a, b) + (if (a, b) == (s, e) then 1 else 0)
    ensures TotalTime(AddDirected(g, s, e, hours), a, b) == TotalTime(g, a, b) + (if (a, b) == (s, e) then hours else 0.0)
  {
    if s !in g.adj {
      assert (s, e) !in g.tally;
    }
  }

  /** The edge from `a` to `b` has been observed once for each observation in
      either direction, and its total time is the sum of their hours; a
      self-loop is counted twice, as the two updates in `get_locations_max_distance` do. */
  lemma {:induction false} AccumulateTally(obs: seq<Observation>, a: Place, b: Place)
    ensures Num(Accumulate(obs), a, b) == Observed(obs, a, b)
    ensures TotalTime(Accumulate(obs), a, b) == ObservedHours(obs, a, b)
  {
    if obs != [] {
      var o := obs[|obs| - 1];
      var g := Accumulate(obs[..|obs| - 1]);
      AccumulateTally(obs[..|obs| - 1], a, b);
      AccumulateWellFormed(obs[..|obs| - 1]);
      AddDirectedWellFormed(g, o.origin, o.destination, o.hours);
      AddDirectedTally(g, o.origin, o.destination, o.hours, a, b);
      AddDirectedTally(AddDirected(g, o.origin, o.destination, o.hours), o.destination, o.origin, o.hours, a, b);
    }
  }

  /** The tally is symmetric: both directions of every edge exist together
      and hold the same count and total time. */
  lemma AccumulateSymmetric(obs: seq<Observation>, a: Place, b: Place)
    ensures ((a, b) in Accumulate(obs).tally) <==> ((b, a) in Accumulate(obs).tally)
    ensures (a, b) in Accumulate(obs).tally ==> Accumulate(obs).tally[(a, b)] == Accumulate(obs).tally[(b, a)]
  {
    var g := Accumulate(obs);
    AccumulateWellFormed(obs);
    AccumulateTally(obs, a, b);
    AccumulateTally(obs, b, a);
    assert (a, b) in g.tally <==> Num(g, a, b) > 0;
    assert (b, a) in g.tally <==> Num(g, b, a) > 0;
  }

  /** Average time per edge and `max_distance = avg_speed * avg_time`. */
  function Finalise(g: Graph, avgSpeed: real): (d: Distances)
    requires forall k | k in g.tally :: g.tally[k].num >= 1
    ensures d.order == g.order && d.adj == g.adj && d.edges.Keys == g.tally.Keys
    ensures forall k | k in d.edges :: d.edges[k] == FinishEdge(g.tally[k], avgSpeed)
  {
    Distances(g.order, g.adj, map k | k in g.tally :: FinishEdge(g.tally[k], avgSpeed))
  }

  /** One edge: its average time times its count is its total time, and its
      bound is the speed times that average. */
  function FinishEdge(t: Tally, avgSpeed: real): (e: Edge)
    requires t.num >= 1
    ensures e.avgTime * (t.num as real) == t.totalTime
    ensures e.maxDistance == avgSpeed * e.avgTime
  {
    var avgTime := t.totalTime / (t.num as real);
    Edge(avgTime, avgSpeed * avgTime)
  }

  /** The structure the bounds engine walks: keys once each in `order`,
      neighbours once each, an edge exactly for each listed neighbour, and
      every neighbour a key again. */
  ghost predicate DistancesWellFormed(d: Distances) {
    && NoDup(d.order)
    && (forall p :: p in d.order <==> p in d.adj)
    && (forall s | s in d.adj :: NoDup(d.adj[s]))
    && (forall s, e | s in d.adj :: e in d.adj[s] <==> (s, e) in d.edges)
    && (forall k | k in d.edges :: k.0 in d.adj && k.1 in d.adj)
  }

  /** Everything the finished graph promises, for any list of observations. */
  lemma FinaliseAccumulate(obs: seq<Observation>, avgSpeed: real)
    ensures WellFormed(Accumulate(obs))
    ensures DistancesWellFormed(Finalise(Accumulate(obs), avgSpeed))
    ensures forall a, b :: (a, b) in Finalise(Accumulate(obs), avgSpeed).edges <==> Observed(obs, a, b) > 0
    ensures forall a, b | (a, b) in Finalise(Accumulate(obs), avgSpeed).edges ::
      (b, a) in Finalise(Accumulate(obs), avgSpeed).edges
      && Finalise(Accumulate(obs), avgSpeed).edges[(a, b)] == Finalise(Accumulate(obs), avgSpeed).edges[(b, a)]
    ensures forall k | k in Finalise(Accumulate(obs), avgSpeed).edges ::
      Finalise(Accumulate(obs), avgSpeed).edges[k] == FinishEdge(Accumulate(obs).tally[k], avgSpeed)
  {
    var g := Accumulate(obs);
    AccumulateWellFormed(obs);
    var d := Finalise(g, avgSpeed);
    forall a, b
      ensures (a, b) in d.edges <==> Observed(obs, a, b) > 0
      ensures (a, b) in d.edges ==> (b, a) in d.edges && d.edges[(a, b)] == d.edges[(b, a)]
    {
      AccumulateTally(obs, a, b);
      AccumulateSymmetric(obs, a, b);
      assert (a, b) in g.tally <==> Num(g, a, b) > 0;
    }
    forall k | k in d.edges
      ensures k.1 in d.adj
    {
      assert (k.1, k.0) in d.edges;
    }
  }

  /** `get_locations_max_distance`. */
  function LocationsMaxDistance(days: seq<Day>, avgSpeed: real): (d: Distances)
    ensures DistancesWellFormed(d)
    ensures forall a, b :: (a, b) in d.edges <==> Observed(Observations(days), a, b) > 0
    ensures forall a, b | (a, b) in d.edges :: (b, a) in d.edges && d.edges[(a, b)] == d.edges[(b, a)]
  {
    var obs := Observations(days);
    FinaliseAccumulate(obs, avgSpeed);
    Finalise(Accumulate(obs), avgSpeed)
  }

  /** An existing entry holds exactly the total hours and the number of the
      observations made in either direction. */
  lemma AccumulateEntry(obs: seq<Observation>, a: Place, b: Place)
    requires (a, b) in Accumulate(obs).tally
    ensures Accumulate(obs).tally[(a, b)] == Tally(ObservedHours(obs, a, b), Observed(obs, a, b))
    ensures Observed(obs, a, b) >= 1
  {
    AccumulateWellFormed(obs);
    AccumulateTally(obs, a, b);
  }

  /** `LocationsMaxDistance` finishes the tally of the diary's observations. */
  lemma LocationsMaxDistanceEdge(days: seq<Day>, avgSpeed: real, a: Place, b: Place)
    requires (a, b) in LocationsMaxDistance(days, avgSpeed).edges
    ensures (a, b) in Accumulate(Observations(days)).tally
    ensures WellFormed(Accumulate(Observations(days)))
    ensures LocationsMaxDistance(days, avgSpeed).edges[(a, b)] == FinishEdge(Accumulate(Observations(days)).tally[(a, b)], avgSpeed)
  {
    var obs := Observations(days);
    AccumulateWellFormed(obs);
    assert LocationsMaxDistance(days, avgSpeed) == Finalise(Accumulate(obs), avgSpeed);
  }

  /** Each edge's average time is the mean of the travel times observed in
      either direction, and its bound is the speed times that mean; it is
      never negative when the configured speed is not. */
  /** Two adjacent spans of a diary day that connect distinct places over a
      non-empty window make the pair of places an edge of the finished
      graph, in both directions. */
  lemma ConnectionMakesEdge(days: seq<Day>, avgSpeed: real, k: int, i: int)
    requires 0 <= k < |days| && 1 <= i < |days[k].spans|
    requires var c := Connection(days[k].spans[i - 1], days[k].spans[i]); c.Some? && c.value.start != c.value.end
    ensures var l := Connection(days[k].spans[i - 1], days[k].spans[i]).value;
      var d := LocationsMaxDistance(days, avgSpeed);
      (l.origin, l.destination) in d.edges && (l.destination, l.origin) in d.edges
  {
    var spans := days[k].spans;
    var l := Connection(spans[i - 1], spans[i]).value;
    LegsComplete(spans, i);
    var o := Observe(l).value;
    ObservationsContain(days, k);
    CountPositive(Observations(days), o);
  }

  lemma EdgeIsAverageOfObservations(days: seq<Day>, avgSpeed: real, a: Place, b: Place)
    requires (a, b) in LocationsMaxDistance(days, avgSpeed).edges
    ensures var obs := Observations(days);
      var e := LocationsMaxDistance(days, avgSpeed).edges[(a, b)];
      && Observed(obs, a, b) >= 1
      && e == FinishEdge(Tally(ObservedHours(obs, a, b), Observed(obs, a, b)), avgSpeed)
      && (avgSpeed >= 0.0 ==> e.maxDistance >= 0.0)
  {
    var obs := Observations(days);
    LocationsMaxDistanceEdge(days, avgSpeed, a, b);
    AccumulateEntry(obs, a, b);
    ObservationsPositive(days);
    ObservationHoursPositive(obs, a, b);
    ObservationHoursPositive(obs, b, a);
    FinishEdgeNonNegative(Tally(ObservedHours(obs, a, b), Observed(obs, a, b)), avgSpeed);
  }

  lemma FinishEdgeNonNegative(t: Tally, avgSpeed: real)
    requires t.num >= 1 && t.totalTime >= 0.0
    ensures avgSpeed >= 0.0 ==> FinishEdge(t, avgSpeed).maxDistance >= 0.0
  {
    var e := FinishEdge(t, avgSpeed);
    assert e.avgTime >= 0.0;
  }

  lemma {:induction false} ObservationHoursPositive(obs: seq<Observation>, a: Place, b: Place)
    requires forall i | 0 <= i < |obs| :: obs[i].hours > 0.0
    ensures Hours(obs, a, b) >= 0.0
  {
    if obs != [] {
      ObservationHoursPositive(obs[..|obs| - 1], a, b);
    }
  }

  lemma {:induction false} LegObservationsPositive(legs: seq<Leg>)
    ensures forall i | 0 <= i < |LegObservations(legs)| :: LegObservations(legs)[i].hours > 0.0
  {
    if legs != [] {
      LegObservationsPositive(legs[..|legs| - 1]);
    }
  }

  lemma {:induction false} ObservationsPositive(days: seq<Day>)
    ensures forall i | 0 <= i < |Observations(days)| :: Observations(days)[i].hours > 0.0
  {
    if days != [] {
      ObservationsPositive(days[..|days| - 1]);
      LegObservationsPositive(Legs(days[|days| - 1].spans));
    }
  }
}
