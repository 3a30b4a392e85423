/**
  * The route layers of the globe view (src/services/routeService.ts): flight
  * routes become arcs and ground routes become two-point paths, each coloured
  * by its position among the routes of its kind, cycling through a palette.
  *
  * Route data is parsed JSON, so a route's `type` is kept as the string it was
  * read as; only "flight" and "ground" are drawn.
  */
module RouteService {
  import opened Seqs

  datatype RouteLocation = RouteLocation(name: string, lat: real, lng: real)

  datatype Route = Route(
    id: string,
    name: string,
    kind: string,
    startLocation: RouteLocation,
    endLocation: RouteLocation,
    startDate: string,
    endDate: string)

  datatype RouteArc = RouteArc(
    id: string,
    name: string,
    startLat: real,
    startLng: real,
    endLat: real,
    endLng: real,
    color: string,
    route: Route)

  /** A ground path; each point is (latitude, longitude). */
  datatype RoutePath = RoutePath(id: string, name: string, points: seq<(real, real)>, color: string, route: Route)

  const FlightColors: seq<string> := [
    "#ff6b6b", "#4ecdc4", "#45b7d1", "#96ceb4", "#feca57", "#ff9ff3", "#54a0ff", "#5f27cd", "#00d2d3"
  ]

  const GroundColors: seq<string> := [
    "#ff7675", "#74b9ff", "#a29bfe", "#fd79a8", "#fdcb6e", "#6c5ce7", "#55a3ff"
  ]

  predicate IsFlightRoute(r: Route) { r.kind == "flight" }

  predicate IsGroundRoute(r: Route) { r.kind == "ground" }

  /** `getFlightColor`: the palette entry at the index modulo the palette's length. */
  function FlightColor(index: nat): (c: string)
    ensures c in FlightColors
  {
    FlightColors[index % |FlightColors|]
  }

  /** `getGroundColor`: the palette entry at the index modulo the palette's length. */
  function GroundColor(index: nat): (c: string)
    ensures c in GroundColors
  {
    GroundColors[index % |GroundColors|]
  }

  /** The flight colours repeat every 9 routes, and no two within one cycle are the same,
      so neighbouring arcs never share a colour. */
  lemma FlightColorsCycle(i: nat, j: nat)
    ensures FlightColor(i) == FlightColor(j) <==> i % 9 == j % 9
  {
    assert |FlightColors| == 9;
    assert forall x, y :: 0 <= x < 9 && 0 <= y < 9 && x != y ==> FlightColors[x] != FlightColors[y];
  }

  /** The ground colours repeat every 7 paths, and no two within one cycle are the same. */
  lemma GroundColorsCycle(i: nat, j: nat)
    ensures GroundColor(i) == GroundColor(j) <==> i % 7 == j % 7
  {
    assert |GroundColors| == 7;
    assert forall x, y :: 0 <= x < 7 && 0 <= y < 7 && x != y ==> GroundColors[x] != GroundColors[y];
  }

  /** The arc of the flight at position `i` among the flights. */
  function ArcFor(flight: Route, i: nat): RouteArc {
    RouteArc(flight.id, flight.name,
             flight.startLocation.lat, flight.startLocation.lng,
             flight.endLocation.lat, flight.endLocation.lng,
             FlightColor(i), flight)
  }

  /** The path of the ground route at position `i` among the ground routes. */
  function PathFor(ground: Route, i: nat): RoutePath {
    RoutePath(ground.id, ground.name,
              [(ground.startLocation.lat, ground.startLocation.lng),
               (ground.endLocation.lat, ground.endLocation.lng)],
              GroundColor(i), ground)
  }

  /** `transformFlightsToArcs`: the flight routes, in order, each as an arc between its
      end points coloured by its position among the flights. */
  function TransformFlightsToArcs(routes: seq<Route>): (r: seq<RouteArc>)
    ensures var flights := Filter(routes, IsFlightRoute);
      && |r| == |flights|
      && forall i :: 0 <= i < |r| ==>
           && r[i].route == flights[i]
           && r[i].id == flights[i].id && r[i].name == flights[i].name
           && r[i].startLat == flights[i].startLocation.lat && r[i].startLng == flights[i].startLocation.lng
           && r[i].endLat == flights[i].endLocation.lat && r[i].endLng == flights[i].endLocation.lng
           && r[i].color == FlightColor(i)
  {
    var flights := Filter(routes, IsFlightRoute);
    seq(|flights|, i requires 0 <= i < |flights| => ArcFor(flights[i], i))
  }

  /** `transformGroundToPaths`: the ground routes, in order, each as a path from its start
      to its end with latitude first, coloured by its position among the ground routes. */
  function TransformGroundToPaths(routes: seq<Route>): (r: seq<RoutePath>)
    ensures var grounds := Filter(routes, IsGroundRoute);
      && |r| == |grounds|
      && forall i :: 0 <= i < |r| ==>
           && r[i].route == grounds[i]
           && r[i].id == grounds[i].id && r[i].name == grounds[i].name
           && r[i].points == [(grounds[i].startLocation.lat, grounds[i].startLocation.lng),
                              (grounds[i].endLocation.lat, grounds[i].endLocation.lng)]
           && r[i].color == GroundColor(i)
  {
    var grounds := Filter(routes, IsGroundRoute);
    seq(|grounds|, i requires 0 <= i < |grounds| => PathFor(grounds[i], i))
  }

  /** A route is drawn as an arc exactly when it is one of the routes and a flight. */
  lemma ArcsAreTheFlights(routes: seq<Route>, x: Route)
    ensures (exists i :: 0 <= i < |TransformFlightsToArcs(routes)| && TransformFlightsToArcs(routes)[i].route == x)
            <==> x in routes && x.kind == "flight"
  {
    var flights := Filter(routes, IsFlightRoute);
    FilterMembership(routes, IsFlightRoute, x);
    if x in flights {
      var i :| 0 <= i < |flights| && flights[i] == x;
      assert TransformFlightsToArcs(routes)[i].route == x;
    }
  }

  /** A route is drawn as a path exactly when it is one of the routes and a ground route. */
  lemma PathsAreTheGroundRoutes(routes: seq<Route>, x: Route)
    ensures (exists i :: 0 <= i < |TransformGroundToPaths(routes)| && TransformGroundToPaths(routes)[i].route == x)
            <==> x in routes && x.kind == "ground"
  {
    var grounds := Filter(routes, IsGroundRoute);
    FilterMembership(routes, IsGroundRoute, x);
    if x in grounds {
      var i :| 0 <= i < |grounds| && grounds[i] == x;
      assert TransformGroundToPaths(routes)[i].route == x;
    }
  }

  /** Appending routes keeps the earlier arcs: the arcs of `a` come first, with their
      colours, and the arcs of `b` add as many again. */
  lemma ArcsOfConcat(a: seq<Route>, b: seq<Route>)
    ensures |TransformFlightsToArcs(a + b)| == |TransformFlightsToArcs(a)| + |TransformFlightsToArcs(b)|
    ensures TransformFlightsToArcs(a + b)[..|TransformFlightsToArcs(a)|] == TransformFlightsToArcs(a)
  {
    var fa, fb := Filter(a, IsFlightRoute), Filter(b, IsFlightRoute);
    FilterConcat(a, b, IsFlightRoute);
    var arcs, left := TransformFlightsToArcs(a + b), TransformFlightsToArcs(a);
    forall i | 0 <= i < |left| ensures arcs[i] == left[i] {
      assert (fa + fb)[i] == fa[i];
    }
  }

  /** Appending routes keeps the earlier paths, with their colours. */
  lemma PathsOfConcat(a: seq<Route>, b: seq<Route>)
    ensures |TransformGroundToPaths(a + b)| == |TransformGroundToPaths(a)| + |TransformGroundToPaths(b)|
    ensures TransformGroundToPaths(a + b)[..|TransformGroundToPaths(a)|] == TransformGroundToPaths(a)
  {
    var ga, gb := Filter(a, IsGroundRoute), Filter(b, IsGroundRoute);
    FilterConcat(a, b, IsGroundRoute);
    var paths, left := TransformGroundToPaths(a + b), TransformGroundToPaths(a);
    forall i | 0 <= i < |left| ensures paths[i] == left[i] {
      assert (ga + gb)[i] == ga[i];
    }
  }
}
