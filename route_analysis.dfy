/** The `analyze-route` handler: validation of the request body, the split
    of each route into consecutive coordinate pairs, and one GeoJSON
    LineString feature per pair carrying the pair's risk level.  Any
    exception raised while doing so is the handler's 500 answer. */
module RouteAnalysis {
  import opened Wrappers
  import opened Json
  import opened SafetyData
  import opened RiskScorer
  import Text

  /** One `Feature` of the answer's `FeatureCollection`: a `LineString` over
      the two coordinates of a segment, `properties.risk_level`, and
      `properties.route_id` when the route has a truthy one. */
  datatype Feature = Feature(coordinates: seq<Json>, riskLevel: RiskLevel, routeId: Option<Json>)

  /** The validation at the top of the handler: the list of routes to score,
      or the 400 error to answer with. */
  function ValidateRouteRequest(body: Json): (r: Result<seq<Json>, ApiError>)
    ensures !Truthy(body) ==> r == Failure(EmptyRequestBody)
    ensures Truthy(body) && body.JObj? && "routes" in body.fields ==>
              var routes := body.fields["routes"];
              r == if routes.JArr? && routes.items != [] then Success(routes.items) else Failure(InvalidRoutesFormat)
    ensures Truthy(body) && body.JObj? && "routes" !in body.fields && "coordinates" in body.fields ==>
              r == Success([JObj(map["coordinates" := body.fields["coordinates"]])])
    ensures Truthy(body) && body.JObj? && "routes" !in body.fields && "coordinates" !in body.fields ==>
              r == Failure(MissingRoutesOrCoordinates)
    ensures Truthy(body) && (body.JStr? || body.JArr?) ==>
              var mentions := if body.JStr? then Text.Contains(body.s, "routes") || Text.Contains(body.s, "coordinates")
                              else JStr("routes") in body.items || JStr("coordinates") in body.items;
              r == if mentions then Failure(InternalServerError) else Failure(MissingRoutesOrCoordinates)
    ensures Truthy(body) && (body.JNum? || body.JBool?) ==> r == Failure(InternalServerError)
    ensures r.Success? ==> r.value != []
  {
    if !Truthy(body) then Failure(EmptyRequestBody)
    else match HasKey(body, "routes")
      case Failure(e) => Failure(e)
      case Success(true) =>
        (match Lookup(body, "routes")
         case Failure(e) => Failure(e)
         case Success(routes) =>
           if !Truthy(routes) || !routes.JArr? then Failure(InvalidRoutesFormat) else Success(routes.items))
      case Success(false) =>
        match HasKey(body, "coordinates")
        case Failure(e) => Failure(e)
        case Success(true) =>
          (match Lookup(body, "coordinates")
           case Failure(e) => Failure(e)
           case Success(coordinates) => Success([JObj(map["coordinates" := coordinates])]))
        case Success(false) => Failure(MissingRoutesOrCoordinates)
  }

  /** `lng, lat = coord[0], coord[1]`. */
  function Components(c: Json): (r: Result<(Json, Json), ApiError>)
    ensures r.Success? <==> Item(c, 0).Success? && Item(c, 1).Success?
    ensures r.Success? ==> r.value == (Item(c, 0).value, Item(c, 1).value)
    ensures r.Failure? ==> r.error == InternalServerError
  {
    var lng :- Item(c, 0);
    var lat :- Item(c, 1);
    Success((lng, lat))
  }

  /** The coordinate as a position, when both of its components are numbers
      (the distance computation subtracts them from floats). */
  function ToPosition(c: Json): (r: Result<Position, ApiError>)
    ensures r.Success? <==> Components(c).Success? && Number(Components(c).value.0).Some?
                                                 && Number(Components(c).value.1).Some?
    ensures r.Success? ==> r.value == Position(Number(Components(c).value.0).value, Number(Components(c).value.1).value)
    ensures r.Failure? ==> r.error == InternalServerError
  {
    var pair :- Components(c);
    var lng, lat := Number(pair.0), Number(pair.1);
    if lng.Some? && lat.Some? then Success(Position(lng.value, lat.value)) else Failure(InternalServerError)
  }

  function ToPositions(cs: seq<Json>): (r: Result<seq<Position>, ApiError>)
    ensures r.Success? <==> forall i | 0 <= i < |cs| :: ToPosition(cs[i]).Success?
    ensures r.Success? ==> |r.value| == |cs| && forall i | 0 <= i < |cs| :: ToPosition(cs[i]) == Success(r.value[i])
    ensures r.Failure? ==> r.error == InternalServerError
  {
    if cs == [] then Success([])
    else
      var p :- ToPosition(cs[0]);
      var rest :- ToPositions(cs[1..]);
      assert forall i | 1 <= i < |cs| :: cs[i] == cs[1..][i - 1];
      Success([p] + rest)
  }

  /** A coordinate can be scored against `data` without raising: it can be
      indexed twice, and, when the store is not empty (only then is a distance
      computed), both components are numbers. */
  predicate Scorable(c: Json, data: seq<IncidentPoint>) {
    Components(c).Success? && (data != [] ==> ToPosition(c).Success?)
  }

  /** `evaluate_segment(segment_coords, SAFETY_DATA)` on a segment as the
      request gave it. */
  function SegmentRisk(segment: seq<Json>, data: seq<IncidentPoint>): (r: Result<RiskLevel, ApiError>)
    ensures r.Success? <==> forall i | 0 <= i < |segment| :: Scorable(segment[i], data)
    ensures r.Success? && data == [] ==> r.value == Safe
    ensures r.Success? && data != [] ==> r.value == EvaluateSegment(ToPositions(segment).value, data, THRESHOLD)
    ensures r.Failure? ==> r.error == InternalServerError
  {
    if data == [] then
      if forall i | 0 <= i < |segment| :: Components(segment[i]).Success? then Success(Safe)
      else Failure(InternalServerError)
    else
      var positions :- ToPositions(segment);
      Success(EvaluateSegment(positions, data, THRESHOLD))
  }

  /** The feature of segment `i` of a route: `[coordinates[i], coordinates[i + 1]]`. */
  function SegmentFeature(coordinates: Json, routeId: Json, data: seq<IncidentPoint>, i: nat): Result<Feature, ApiError> {
    var a :- Item(coordinates, i);
    var b :- Item(coordinates, i + 1);
    var risk :- SegmentRisk([a, b], data);
    Success(Feature([a, b], risk, if Truthy(routeId) then Some(routeId) else None))
  }

  /** The results of `f(0)`, ..., `f(k - 1)`, in order, or the first error
      among them. */
  function Collect<T>(f: nat -> Result<T, ApiError>, k: nat): Result<seq<T>, ApiError> {
    if k == 0 then Success([])
    else
      var previous :- Collect(f, k - 1);
      var last :- f(k - 1);
      Success(previous + [last])
  }

  /** Segment by segment, the features of one route. */
  function SegmentFeatureOf(coordinates: Json, routeId: Json, data: seq<IncidentPoint>): nat -> Result<Feature, ApiError> {
    (i: nat) => SegmentFeature(coordinates, routeId, data, i)
  }

  /** The features of the first `k` segments of a route, in order. */
  function SegmentFeatures(coordinates: Json, routeId: Json, data: seq<IncidentPoint>, k: nat): Result<seq<Feature>, ApiError> {
    Collect(SegmentFeatureOf(coordinates, routeId, data), k)
  }

  /** The features one route contributes; a route with fewer than two
      coordinates contributes none. */
  function RouteFeatures(route: Json, data: seq<IncidentPoint>): Result<seq<Feature>, ApiError> {
    if !route.JObj? then Failure(InternalServerError)
    else
      var coordinates := Get(route.fields, "coordinates", JArr([]));
      var routeId := Get(route.fields, "route_id", JNull);
      if !Truthy(coordinates) then Success([])
      else
        var n :- Len(coordinates);
        if n < 2 then Success([]) else SegmentFeatures(coordinates, routeId, data, n - 1)
  }

  /** The features of all routes, route after route. */
  function RoutesFeatures(routes: seq<Json>, data: seq<IncidentPoint>): Result<seq<Feature>, ApiError>
    decreases |routes|
  {
    if routes == [] then Success([])
    else
      var previous :- RoutesFeatures(routes[..|routes| - 1], data);
      var features :- RouteFeatures(routes[|routes| - 1], data);
      Success(previous + features)
  }

  /** The whole handler: the error to answer with, or the features of the
      `FeatureCollection`. */
  function AnalyzeRouteResult(body: Json, data: seq<IncidentPoint>): Result<seq<Feature>, ApiError> {
    var routes :- ValidateRouteRequest(body);
    RoutesFeatures(routes, data)
  }

  /** Segment `k` of a list of coordinates succeeds exactly when both of its
      coordinates can be scored, and then holds `[xs[k], xs[k + 1]]`. */
  lemma SegmentFeatureShape(xs: seq<Json>, routeId: Json, data: seq<IncidentPoint>, k: nat)
    requires k + 1 < |xs|
    ensures SegmentFeature(JArr(xs), routeId, data, k).Success? <==> Scorable(xs[k], data) && Scorable(xs[k + 1], data)
    ensures SegmentFeature(JArr(xs), routeId, data, k).Success? ==>
              var f := SegmentFeature(JArr(xs), routeId, data, k).value;
              && f.coordinates == [xs[k], xs[k + 1]]
              && SegmentRisk([xs[k], xs[k + 1]], data) == Success(f.riskLevel)
              && f.routeId == if Truthy(routeId) then Some(routeId) else None
  {
    var r := SegmentRisk([xs[k], xs[k + 1]], data);
    assert r.Success? <==> Scorable(xs[k], data) && Scorable(xs[k + 1], data) by {
      assert [xs[k], xs[k + 1]][0] == xs[k] && [xs[k], xs[k + 1]][1] == xs[k + 1];
    }
  }

  /** Collecting succeeds exactly when each call does, and then holds the
      calls' results in order. */
  lemma {:induction false} CollectAt<T>(f: nat -> Result<T, ApiError>, k: nat)
    ensures Collect(f, k).Success? <==> forall i | 0 <= i < k :: f(i).Success?
    ensures Collect(f, k).Success? ==> |Collect(f, k).value| == k && forall i | 0 <= i < k :: f(i) == Success(Collect(f, k).value[i])
  {
    if k > 0 {
      CollectAt(f, k - 1);
    }
  }

  /** The first `k` segments succeed exactly when each of them does, and
      then the `i`-th feature is that of segment `i`. */
  lemma SegmentFeaturesAt(coordinates: Json, routeId: Json, data: seq<IncidentPoint>, k: nat)
    ensures SegmentFeatures(coordinates, routeId, data, k).Success? <==>
              forall i | 0 <= i < k :: SegmentFeature(coordinates, routeId, data, i).Success?
    ensures SegmentFeatures(coordinates, routeId, data, k).Success? ==>
              var fs := SegmentFeatures(coordinates, routeId, data, k).value;
              |fs| == k && forall i | 0 <= i < k :: SegmentFeature(coordinates, routeId, data, i) == Success(fs[i])
  {
    var f := SegmentFeatureOf(coordinates, routeId, data);
    CollectAt(f, k);
    assert forall i: nat | i < k :: f(i) == SegmentFeature(coordinates, routeId, data, i);
  }

  /** What one route contributes (`route` an object whose `coordinates` is a
      list `xs`): nothing when `xs` has fewer than two coordinates; otherwise
      it succeeds exactly when every coordinate can be scored, and then emits
      `|xs| - 1` features in order, the `i`-th over `[xs[i], xs[i + 1]]` with
      that segment's risk level, carrying `route_id` exactly when it is truthy. */
  lemma RouteFeaturesShape(route: Json, xs: seq<Json>, data: seq<IncidentPoint>)
    requires route.JObj? && Get(route.fields, "coordinates", JArr([])) == JArr(xs)
    ensures |xs| < 2 ==> RouteFeatures(route, data) == Success([])
    ensures |xs| >= 2 ==> (RouteFeatures(route, data).Success? <==> forall i | 0 <= i < |xs| :: Scorable(xs[i], data))
    ensures RouteFeatures(route, data).Success? ==>
              var fs := RouteFeatures(route, data).value;
              var routeId := Get(route.fields, "route_id", JNull);
              && |fs| == (if |xs| >= 2 then |xs| - 1 else 0)
              && (forall i | 0 <= i < |fs| :: fs[i].coordinates == [xs[i], xs[i + 1]])
              && (forall i | 0 <= i < |fs| :: SegmentRisk([xs[i], xs[i + 1]], data) == Success(fs[i].riskLevel))
              && (forall i | 0 <= i < |fs| :: fs[i].routeId == if Truthy(routeId) then Some(routeId) else None)
  {
    RouteFeaturesOfList(route, xs, data);
    if |xs| >= 2 {
      var routeId := Get(route.fields, "route_id", JNull);
      SegmentFeaturesAt(JArr(xs), routeId, data, |xs| - 1);
      SegmentsSucceed(xs, routeId, data);
      if RouteFeatures(route, data).Success? {
        SegmentValues(xs, routeId, data, RouteFeatures(route, data).value);
      }
    }
  }

  lemma RouteFeaturesOfList(route: Json, xs: seq<Json>, data: seq<IncidentPoint>)
    requires route.JObj? && Get(route.fields, "coordinates", JArr([])) == JArr(xs)
    ensures RouteFeatures(route, data)
         == if |xs| < 2 then Success([]) else SegmentFeatures(JArr(xs), Get(route.fields, "route_id", JNull), data, |xs| - 1)
  {
    assert Len(JArr(xs)) == Success(|xs|);
    assert Truthy(JArr(xs)) <==> |xs| > 0;
  }

  lemma SegmentsSucceed(xs: seq<Json>, routeId: Json, data: seq<IncidentPoint>)
    requires |xs| >= 2
    ensures (forall i | 0 <= i < |xs| - 1 :: SegmentFeature(JArr(xs), routeId, data, i).Success?)
        <==> (forall i | 0 <= i < |xs| :: Scorable(xs[i], data))
  {
    forall i | 0 <= i < |xs| - 1
      ensures SegmentFeature(JArr(xs), routeId, data, i).Success? <==> Scorable(xs[i], data) && Scorable(xs[i + 1], data)
    {
      SegmentFeatureShape(xs, routeId, data, i);
    }
    if exists j | 0 <= j < |xs| :: !Scorable(xs[j], data) {
      var j :| 0 <= j < |xs| && !Scorable(xs[j], data);
      var i := if j < |xs| - 1 then j else j - 1;
      assert !SegmentFeature(JArr(xs), routeId, data, i).Success?;
    }
  }

  lemma SegmentValues(xs: seq<Json>, routeId: Json, data: seq<IncidentPoint>, fs: seq<Feature>)
    requires |xs| >= 2
    requires SegmentFeatures(JArr(xs), routeId, data, |xs| - 1) == Success(fs)
    ensures |fs| == |xs| - 1
    ensures forall i | 0 <= i < |fs| :: fs[i].coordinates == [xs[i], xs[i + 1]]
    ensures forall i | 0 <= i < |fs| :: SegmentRisk([xs[i], xs[i + 1]], data) == Success(fs[i].riskLevel)
    ensures forall i | 0 <= i < |fs| :: fs[i].routeId == if Truthy(routeId) then Some(routeId) else None
  {
    SegmentFeaturesAt(JArr(xs), routeId, data, |xs| - 1);
    forall i | 0 <= i < |fs|
      ensures fs[i].coordinates == [xs[i], xs[i + 1]]
      ensures SegmentRisk([xs[i], xs[i + 1]], data) == Success(fs[i].riskLevel)
      ensures fs[i].routeId == if Truthy(routeId) then Some(routeId) else None
    {
      SegmentFeatureShape(xs, routeId, data, i);
    }
  }

  /** All routes succeed exactly when each of them does. */
  lemma {:induction false} RoutesFeaturesSucceed(routes: seq<Json>, data: seq<IncidentPoint>)
    ensures RoutesFeatures(routes, data).Success? <==> forall k | 0 <= k < |routes| :: RouteFeatures(routes[k], data).Success?
    decreases |routes|
  {
    if routes != [] {
      var init := routes[..|routes| - 1];
      RoutesFeaturesSucceed(init, data);
      assert forall k | 0 <= k < |init| :: init[k] == routes[k];
    }
  }

  /** The answer lists each route's features after those of the routes before it. */
  lemma RoutesFeaturesAppend(routes: seq<Json>, route: Json, data: seq<IncidentPoint>)
    requires RoutesFeatures(routes, data).Success? && RouteFeatures(route, data).Success?
    ensures RoutesFeatures(routes + [route], data)
         == Success(RoutesFeatures(routes, data).value + RouteFeatures(route, data).value)
  {
    assert (routes + [route])[..|routes|] == routes;
  }

  lemma {:induction false} CollectFailurePropagates<T>(f: nat -> Result<T, ApiError>, i: nat, k: nat)
    requires i <= k && Collect(f, i).Failure?
    ensures Collect(f, k) == Collect(f, i)
    decreases k
  {
    if i < k {
      CollectFailurePropagates(f, i, k - 1);
    }
  }

  /** One more call extends the collected results, or ends in its error. */
  lemma CollectStep<T>(f: nat -> Result<T, ApiError>, k: nat)
    requires Collect(f, k).Success?
    ensures f(k).Success? ==> Collect(f, k + 1) == Success(Collect(f, k).value + [f(k).value])
    ensures f(k).Failure? ==> Collect(f, k + 1) == Failure(f(k).error)
  {
  }

  /** The loop step over segment `k` of a route. */
  lemma SegmentFeaturesStep(coordinates: Json, routeId: Json, data: seq<IncidentPoint>, k: nat, fs: seq<Feature>)
    requires SegmentFeatures(coordinates, routeId, data, k) == Success(fs)
    ensures var feature := SegmentFeature(coordinates, routeId, data, k);
            && (feature.Success? ==> SegmentFeatures(coordinates, routeId, data, k + 1) == Success(fs + [feature.value]))
            && (feature.Failure? ==> SegmentFeatures(coordinates, routeId, data, k + 1) == Failure(feature.error))
  {
    var f := SegmentFeatureOf(coordinates, routeId, data);
    CollectStep(f, k);
    assert f(k) == SegmentFeature(coordinates, routeId, data, k);
  }

  /** Once a segment fails, the route fails with that error. */
  lemma SegmentFailurePropagates(coordinates: Json, routeId: Json, data: seq<IncidentPoint>, i: nat, k: nat)
    requires i <= k && SegmentFeatures(coordinates, routeId, data, i).Failure?
    ensures SegmentFeatures(coordinates, routeId, data, k) == SegmentFeatures(coordinates, routeId, data, i)
  {
    CollectFailurePropagates(SegmentFeatureOf(coordinates, routeId, data), i, k);
  }

  lemma {:induction false} RoutesFailurePropagates(routes: seq<Json>, data: seq<IncidentPoint>, k: nat)
    requires k <= |routes| && RoutesFeatures(routes[..k], data).Failure?
    ensures RoutesFeatures(routes, data) == RoutesFeatures(routes[..k], data)
    decreases |routes|
  {
    if k < |routes| {
      var init := routes[..|routes| - 1];
      assert init[..k] == routes[..k];
      RoutesFailurePropagates(init, data, k);
    } else {
      assert routes[..k] == routes;
    }
  }

  /** The features of one route, built by the handler's inner loop. */
  method EmitRouteFeatures(route: Json, data: seq<IncidentPoint>) returns (r: Result<seq<Feature>, ApiError>)
    ensures r == RouteFeatures(route, data)
  {
    if !route.JObj? {
      return Failure(InternalServerError);
    }
    var coordinates := Get(route.fields, "coordinates", JArr([]));
    var routeId := Get(route.fields, "route_id", JNull);
    if !Truthy(coordinates) {
      return Success([]);
    }
    var n :- Len(coordinates);
    if n < 2 {
      return Success([]);
    }
    var features: seq<Feature> := [];
    for i := 0 to n - 1
      invariant SegmentFeatures(coordinates, routeId, data, i) == Success(features)
    {
      var feature := EmitSegmentFeature(coordinates, routeId, data, i);
      SegmentFeaturesStep(coordinates, routeId, data, i, features);
      if feature.Failure? {
        SegmentFailurePropagates(coordinates, routeId, data, i + 1, n - 1);
        return Failure(feature.error);
      }
      features := features + [feature.value];
    }
    r := Success(features);
  }

  /** The body of the inner loop for segment `i`: index the two coordinates,
      score the segment, build the feature. */
  method EmitSegmentFeature(coordinates: Json, routeId: Json, data: seq<IncidentPoint>, i: nat)
    returns (r: Result<Feature, ApiError>)
    ensures r == SegmentFeature(coordinates, routeId, data, i)
  {
    var a :- Item(coordinates, i);
    var b :- Item(coordinates, i + 1);
    var risk: RiskLevel;
    assert [a, b][0] == a && [a, b][1] == b;
    if data == [] {
      // No distance is computed against an empty store: only the indexing
      // `coord[0], coord[1]` can fail, and the segment is safe.
      if Components(a).Failure? || Components(b).Failure? {
        return Failure(InternalServerError);
      }
      risk := Safe;
    } else {
      if ToPosition(a).Failure? || ToPosition(b).Failure? {
        assert !Scorable(a, data) || !Scorable(b, data);
        return Failure(InternalServerError);
      }
      var pa, pb := ToPosition(a).value, ToPosition(b).value;
      ToPositionsPair(a, b);
      var nearby := FindNearbyIncidents([pa, pb], data, THRESHOLD);
      risk := CalculateRiskLevel(nearby);
    }
    var id := if Truthy(routeId) then Some(routeId) else None;
    r := Success(Feature([a, b], risk, id));
  }

  lemma ToPositionsPair(a: Json, b: Json)
    requires ToPosition(a).Success? && ToPosition(b).Success?
    ensures ToPositions([a, b]) == Success([ToPosition(a).value, ToPosition(b).value])
  {
    assert [a, b][0] == a && [a, b][1..] == [b] && [b][0] == b && [b][1..] == [];
    var one := ToPositions([b]);
    assert one.Success? && |one.value| == 1 && ToPosition([b][0]) == Success(one.value[0]);
    var two := ToPositions([a, b]);
    assert two.Success? && |two.value| == 2;
    assert ToPosition([a, b][0]) == Success(two.value[0]) && ToPosition([a, b][1]) == Success(two.value[1]);
    assert two.value == [ToPosition(a).value, ToPosition(b).value];
  }

  /** `analyze_route`: validate, then the loop over routes. */
  method AnalyzeRoute(body: Json, data: seq<IncidentPoint>) returns (r: Result<seq<Feature>, ApiError>)
    ensures r == AnalyzeRouteResult(body, data)
  {
    var routes :- ValidateRouteRequest(body);
    var features: seq<Feature> := [];
    for k := 0 to |routes|
      invariant RoutesFeatures(routes[..k], data) == Success(features)
    {
      var routeFeatures := EmitRouteFeatures(routes[k], data);
      assert routes[..k + 1][..k] == routes[..k];
      if routeFeatures.Failure? {
        RoutesFailurePropagates(routes, data, k + 1);
        return Failure(routeFeatures.error);
      }
      features := features + routeFeatures.value;
    }
    assert routes[..|routes|] == routes;
    r := Success(features);
  }

  /** `{"coordinates": [[0, 0], [0, 0.0005]]}` against a store holding one
      poorly lit point with 12 incidents at (0, 0) gives one feature, over
      the two coordinates, whose level is poor and which has no route id. */
  lemma ScenarioSingleRoute()
    ensures
      var c0, c1 := JArr([JNum(0.0), JNum(0.0)]), JArr([JNum(0.0), JNum(0.0005)]);
      AnalyzeRouteResult(JObj(map["coordinates" := JArr([c0, c1])]), [IncidentPoint(0.0, 0.0, 12, "poor")])
      == Success([Feature([c0, c1], Poor, None)])
  {
    var c0, c1 := JArr([JNum(0.0), JNum(0.0)]), JArr([JNum(0.0), JNum(0.0005)]);
    var body := JObj(map["coordinates" := JArr([c0, c1])]);
    var p := IncidentPoint(0.0, 0.0, 12, "poor");
    var route := JObj(map["coordinates" := JArr([c0, c1])]);
    var f := Feature([c0, c1], Poor, None);
    ScenarioBody(c0, c1);
    ScenarioRoute(c0, c1, p);
    assert [route][..0] == [] && [route][0] == route;
    assert RoutesFeatures([], [p]) == Success([]);
    assert RouteFeatures(route, [p]) == Success([f]);
    assert [] + [f] == [f];
    assert RoutesFeatures([route], [p]) == Success([f]);
  }

  /** Bodies that are not objects: a string or list that mentions neither key
      is missing both; one that mentions a key fails when it is indexed; a
      number cannot be searched at all. */
  lemma ScenarioNonObjectBodies()
    ensures ValidateRouteRequest(JStr("abc")) == Failure(MissingRoutesOrCoordinates)
    ensures ValidateRouteRequest(JArr([JNum(1.0)])) == Failure(MissingRoutesOrCoordinates)
    ensures ValidateRouteRequest(JStr("routes")) == Failure(InternalServerError)
    ensures ValidateRouteRequest(JArr([JStr("coordinates")])) == Failure(InternalServerError)
    ensures ValidateRouteRequest(JNum(5.0)) == Failure(InternalServerError)
    ensures ValidateRouteRequest(JBool(true)) == Failure(InternalServerError)
  {
    assert !Text.OccursAt("abc", "routes", 0);
    assert !Text.Contains("abc", "coordinates");
    assert Text.OccursAt("routes", "routes", 0);
  }

  lemma ScenarioBody(c0: Json, c1: Json)
    ensures ValidateRouteRequest(JObj(map["coordinates" := JArr([c0, c1])])) == Success([JObj(map["coordinates" := JArr([c0, c1])])])
  {
    var body := JObj(map["coordinates" := JArr([c0, c1])]);
    assert "coordinates" in body.fields && "routes" !in body.fields;
    assert HasKey(body, "routes") == Success(false);
    assert HasKey(body, "coordinates") == Success(true);
  }

  lemma ScenarioRoute(c0: Json, c1: Json, p: IncidentPoint)
    requires c0 == JArr([JNum(0.0), JNum(0.0)]) && c1 == JArr([JNum(0.0), JNum(0.0005)])
    requires p == IncidentPoint(0.0, 0.0, 12, "poor")
    ensures RouteFeatures(JObj(map["coordinates" := JArr([c0, c1])]), [p]) == Success([Feature([c0, c1], Poor, None)])
  {
    var route := JObj(map["coordinates" := JArr([c0, c1])]);
    var xs := JArr([c0, c1]);
    var f := Feature([c0, c1], Poor, None);
    ScenarioSegment(c0, c1, p);
    assert SegmentFeatures(xs, JNull, [p], 0) == Success([]);
    assert [] + [f] == [f];
    assert SegmentFeatures(xs, JNull, [p], 1) == Success([f]);
    assert "route_id" !in route.fields;
    RouteFeaturesOfList(route, [c0, c1], [p]);
  }

  lemma ScenarioSegment(c0: Json, c1: Json, p: IncidentPoint)
    requires c0 == JArr([JNum(0.0), JNum(0.0)]) && c1 == JArr([JNum(0.0), JNum(0.0005)])
    requires p == IncidentPoint(0.0, 0.0, 12, "poor")
    ensures SegmentFeature(JArr([c0, c1]), JNull, [p], 0) == Success(Feature([c0, c1], Poor, None))
  {
    var a, b := Position(0.0, 0.0), Position(0.0, 0.0005);
    assert ToPosition(c0) == Success(a) && ToPosition(c1) == Success(b);
    ToPositionsPair(c0, c1);
    assert Near(a, p, THRESHOLD);
    NearbyOfPair(a, b, p, THRESHOLD);
    assert TotalIncidents([p]) == 12;
    assert SegmentRisk([c0, c1], [p]) == Success(Poor);
    var xs := JArr([c0, c1]);
    assert Item(xs, 0) == Success(c0) && Item(xs, 1) == Success(c1);
    assert !Truthy(JNull);
  }
}
