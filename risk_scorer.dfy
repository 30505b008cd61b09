/** The proximity risk scorer: which stored incident points lie near the
    coordinates of a route segment, and how the points found classify the
    segment as safe, moderate or poor. */
module RiskScorer {
  import opened SafetyData

  /** A route coordinate; the request sends it as `[lng, lat]`. */
  datatype Position = Position(lng: real, lat: real)

  datatype RiskLevel = Safe | Moderate | Poor

  /** The distance threshold the route handler uses, in raw degrees. */
  const THRESHOLD: real := 0.01

  /** The square of the planar distance between a coordinate and a point. */
  function SquaredDistance(c: Position, p: IncidentPoint): (d: real)
    ensures d >= 0.0
  {
    (c.lat - p.lat) * (c.lat - p.lat) + (c.lng - p.lng) * (c.lng - p.lng)
  }

  /** `calculate_distance(...) < threshold`, without the square root. */
  predicate Near(c: Position, p: IncidentPoint, threshold: real) {
    threshold > 0.0 && SquaredDistance(c, p) < threshold * threshold
  }

  /** For any square root `root` of the squared distance `d`, comparing the
      root with the threshold is comparing `d` with the threshold squared. */
  lemma NearMatchesSqrt(d: real, root: real, threshold: real)
    requires root >= 0.0 && root * root == d
    ensures root < threshold <==> threshold > 0.0 && d < threshold * threshold
  {
    if root < threshold {
      assert threshold - root > 0.0 && threshold + root > 0.0;
      assert threshold * threshold - root * root == (threshold - root) * (threshold + root);
    }
  }

  /** One step of the inner loop: append `p` if it is near `c` and not yet
      collected (`point not in nearby_points` compares records by value). */
  function AddIfNear(acc: seq<IncidentPoint>, c: Position, p: IncidentPoint, threshold: real): seq<IncidentPoint> {
    if Near(c, p, threshold) && p !in acc then acc + [p] else acc
  }

  /** The inner loop over the store for one coordinate, started from `acc`. */
  function ScanPoints(acc: seq<IncidentPoint>, c: Position, points: seq<IncidentPoint>, threshold: real): seq<IncidentPoint>
    decreases |points|
  {
    if points == [] then acc
    else AddIfNear(ScanPoints(acc, c, points[..|points| - 1], threshold), c, points[|points| - 1], threshold)
  }

  /** `find_nearby_incidents`: both loops, coordinates outside, store inside. */
  function Nearby(coords: seq<Position>, data: seq<IncidentPoint>, threshold: real): seq<IncidentPoint>
    decreases |coords|
  {
    if coords == [] then []
    else ScanPoints(Nearby(coords[..|coords| - 1], data, threshold), coords[|coords| - 1], data, threshold)
  }

  /** `p` is near at least one of the coordinates. */
  predicate NearAny(coords: seq<Position>, p: IncidentPoint, threshold: real) {
    exists i | 0 <= i < |coords| :: Near(coords[i], p, threshold)
  }

  predicate NoDuplicates(s: seq<IncidentPoint>) {
    forall i, j | 0 <= i < j < |s| :: s[i] != s[j]
  }

  /** The inner loop only appends, never appends a duplicate, and appends
      exactly the points of the store near `c` that were not already there. */
  lemma {:induction false} ScanPointsProperties(acc: seq<IncidentPoint>, c: Position, points: seq<IncidentPoint>, threshold: real)
    requires NoDuplicates(acc)
    ensures NoDuplicates(ScanPoints(acc, c, points, threshold))
    ensures forall x :: x in ScanPoints(acc, c, points, threshold) <==> x in acc || (x in points && Near(c, x, threshold))
    decreases |points|
  {
    if points != [] {
      var init := points[..|points| - 1];
      var last := points[|points| - 1];
      ScanPointsProperties(acc, c, init, threshold);
      assert points == init + [last];
    }
  }

  /** The result of `find_nearby_incidents` holds no point twice, and holds
      exactly the points of the store that are near at least one coordinate. */
  lemma {:induction false} NearbyCharacterized(coords: seq<Position>, data: seq<IncidentPoint>, threshold: real)
    ensures NoDuplicates(Nearby(coords, data, threshold))
    ensures forall x :: x in Nearby(coords, data, threshold) <==> x in data && NearAny(coords, x, threshold)
    decreases |coords|
  {
    if coords != [] {
      var init := coords[..|coords| - 1];
      var last := coords[|coords| - 1];
      NearbyCharacterized(init, data, threshold);
      ScanPointsProperties(Nearby(init, data, threshold), last, data, threshold);
      forall x ensures x in Nearby(coords, data, threshold) <==> x in data && NearAny(coords, x, threshold) {
        if x in data && NearAny(coords, x, threshold) {
          var i :| 0 <= i < |coords| && Near(coords[i], x, threshold);
          if i < |coords| - 1 {
            assert coords[i] == init[i];
          }
        }
        if x in Nearby(init, data, threshold) {
          var i :| 0 <= i < |init| && Near(init[i], x, threshold);
          assert coords[i] == init[i];
        }
      }
    }
  }

  /** `find_nearby_incidents(route_coords, safety_data, threshold)`. */
  method FindNearbyIncidents(coords: seq<Position>, data: seq<IncidentPoint>, threshold: real)
    returns (nearby: seq<IncidentPoint>)
    ensures nearby == Nearby(coords, data, threshold)
  {
    nearby := [];
    for i := 0 to |coords|
      invariant nearby == Nearby(coords[..i], data, threshold)
    {
      var c := coords[i];
      ghost var before := nearby;
      for j := 0 to |data|
        invariant nearby == ScanPoints(before, c, data[..j], threshold)
      {
        var p := data[j];
        if Near(c, p, threshold) && p !in nearby {
          nearby := nearby + [p];
        }
        assert data[..j + 1][..j] == data[..j];
      }
      assert data[..|data|] == data;
      assert coords[..i + 1][..i] == coords[..i];
    }
    assert coords[..|coords|] == coords;
  }

  function PoorLightingCount(s: seq<IncidentPoint>): nat {
    LightingCount(s, "poor")
  }

  /** `calculate_risk_level` on given counts. */
  function Classify(total: int, poor: nat): RiskLevel {
    if total >= 10 || poor >= 2 then Poor
    else if total >= 5 || poor >= 1 then Moderate
    else Safe
  }

  /** `calculate_risk_level(nearby_points)`. */
  function CalculateRiskLevel(nearby: seq<IncidentPoint>): (r: RiskLevel)
    ensures nearby == [] ==> r == Safe
    ensures r == Poor <==> nearby != [] && (TotalIncidents(nearby) >= 10 || PoorLightingCount(nearby) >= 2)
    ensures r == Moderate <==> nearby != [] && !(TotalIncidents(nearby) >= 10 || PoorLightingCount(nearby) >= 2)
                                            && (TotalIncidents(nearby) >= 5 || PoorLightingCount(nearby) >= 1)
  {
    if nearby == [] then Safe else Classify(TotalIncidents(nearby), PoorLightingCount(nearby))
  }

  /** The order safe < moderate < poor. */
  function Severity(r: RiskLevel): nat {
    match r
    case Safe => 0
    case Moderate => 1
    case Poor => 2
  }

  /** Raising the incident total or the poor-lighting count, the other held
      fixed, never lowers the level. */
  lemma ClassifyMonotone(total: int, poor: nat, total': int, poor': nat)
    requires total <= total' && poor <= poor'
    ensures Severity(Classify(total, poor)) <= Severity(Classify(total', poor'))
  {
  }

  /** Finding more points near a segment, none with a negative count, never
      lowers its level. */
  lemma RiskMonotoneInNearby(s: seq<IncidentPoint>, t: seq<IncidentPoint>)
    requires forall p | p in t :: p.incidentCount >= 0
    ensures Severity(CalculateRiskLevel(s)) <= Severity(CalculateRiskLevel(s + t))
  {
    TotalIncidentsNonNegative(t);
    TotalIncidentsAppend(s, t);
    LightingCountAppend(s, t, "poor");
    if s == [] {
      assert s + t == t;
    }
  }

  lemma {:induction false} TotalIncidentsNonNegative(t: seq<IncidentPoint>)
    requires forall p | p in t :: p.incidentCount >= 0
    ensures TotalIncidents(t) >= 0
  {
    if t != [] {
      TotalIncidentsNonNegative(t[1..]);
    }
  }

  /** `evaluate_segment(segment_coords, safety_data, threshold)`. */
  function EvaluateSegment(segment: seq<Position>, data: seq<IncidentPoint>, threshold: real): RiskLevel {
    CalculateRiskLevel(Nearby(segment, data, threshold))
  }

  /** Duplicate-free lists with the same elements are permutations of each
      other. */
  lemma {:induction false} SameElementsSameMultiset(a: seq<IncidentPoint>, b: seq<IncidentPoint>)
    requires NoDuplicates(a) && NoDuplicates(b)
    requires forall x :: x in a <==> x in b
    ensures multiset(a) == multiset(b)
  {
    forall x ensures multiset(a)[x] == multiset(b)[x] {
      MultiplicityWithoutDuplicates(a, x);
      MultiplicityWithoutDuplicates(b, x);
    }
  }

  lemma {:induction false} MultiplicityWithoutDuplicates(s: seq<IncidentPoint>, x: IncidentPoint)
    requires NoDuplicates(s)
    ensures multiset(s)[x] == if x in s then 1 else 0
  {
    if s != [] {
      assert s == [s[0]] + s[1..];
      assert NoDuplicates(s[1..]) by {
        forall i, j | 0 <= i < j < |s[1..]| ensures s[1..][i] != s[1..][j] {
          assert s[1..][i] == s[i + 1] && s[1..][j] == s[j + 1];
        }
      }
      MultiplicityWithoutDuplicates(s[1..], x);
      assert s[0] !in s[1..] by {
        forall k | 0 <= k < |s[1..]| ensures s[1..][k] != s[0] {
          assert s[1..][k] == s[k + 1];
        }
      }
    }
  }

  /** What `evaluate_segment` answers depends only on which coordinates the
      segment holds: listing them in another order, or repeating one, does not
      change the level. */
  lemma EvaluateSegmentOrderIndependent(c1: seq<Position>, c2: seq<Position>, data: seq<IncidentPoint>, threshold: real)
    requires forall c :: c in c1 <==> c in c2
    ensures EvaluateSegment(c1, data, threshold) == EvaluateSegment(c2, data, threshold)
  {
    var n1, n2 := Nearby(c1, data, threshold), Nearby(c2, data, threshold);
    NearbySameElements(c1, c2, data, threshold);
    NearbyCharacterized(c1, data, threshold);
    NearbyCharacterized(c2, data, threshold);
    SameElementsSameMultiset(n1, n2);
    ReductionsIgnoreOrder(n1, n2, "poor");
    assert |n1| == |multiset(n1)| == |multiset(n2)| == |n2|;
  }

  lemma NearbySameElements(c1: seq<Position>, c2: seq<Position>, data: seq<IncidentPoint>, threshold: real)
    requires forall c :: c in c1 <==> c in c2
    ensures forall x :: x in Nearby(c1, data, threshold) <==> x in Nearby(c2, data, threshold)
  {
    NearbyCharacterized(c1, data, threshold);
    NearbyCharacterized(c2, data, threshold);
    forall x ensures NearAny(c1, x, threshold) <==> NearAny(c2, x, threshold) {
      NearAnySameElements(c1, c2, x, threshold);
    }
  }

  lemma NearAnySameElements(c1: seq<Position>, c2: seq<Position>, x: IncidentPoint, threshold: real)
    requires forall c :: c in c1 <==> c in c2
    ensures NearAny(c1, x, threshold) <==> NearAny(c2, x, threshold)
  {
    if NearAny(c1, x, threshold) {
      var i :| 0 <= i < |c1| && Near(c1[i], x, threshold);
      assert c1[i] in c2;
      var j :| 0 <= j < |c2| && c2[j] == c1[i];
    }
    if NearAny(c2, x, threshold) {
      var i :| 0 <= i < |c2| && Near(c2[i], x, threshold);
      assert c2[i] in c1;
      var j :| 0 <= j < |c1| && c1[j] == c2[i];
    }
  }

  /** Swapping the two endpoints of a segment does not change its level. */
  lemma EvaluateSegmentSymmetric(a: Position, b: Position, data: seq<IncidentPoint>, threshold: real)
    ensures EvaluateSegment([a, b], data, threshold) == EvaluateSegment([b, a], data, threshold)
  {
    EvaluateSegmentOrderIndependent([a, b], [b, a], data, threshold);
  }

  /** With an empty store every segment is safe. */
  lemma {:induction false} EmptyStoreIsSafe(coords: seq<Position>, threshold: real)
    ensures Nearby(coords, [], threshold) == []
    ensures EvaluateSegment(coords, [], threshold) == Safe
    decreases |coords|
  {
    if coords != [] {
      EmptyStoreIsSafe(coords[..|coords| - 1], threshold);
    }
  }

  /** A segment from (lng 0, lat 0) to (lng 0, lat 0.001) next to a single
      poorly lit point with 12 incidents is poor; the same segment moved to
      (10, 10) is safe. */
  lemma ScenarioSegments()
    ensures EvaluateSegment([Position(0.0, 0.0), Position(0.0, 0.001)],
                            [IncidentPoint(0.0, 0.0, 12, "poor")], THRESHOLD) == Poor
    ensures EvaluateSegment([Position(10.0, 10.0), Position(10.0, 10.001)],
                            [IncidentPoint(0.0, 0.0, 12, "poor")], THRESHOLD) == Safe
  {
    var p := IncidentPoint(0.0, 0.0, 12, "poor");
    var a, b := Position(0.0, 0.0), Position(0.0, 0.001);
    assert Near(a, p, THRESHOLD) && Near(b, p, THRESHOLD);
    NearbyOfPair(a, b, p, THRESHOLD);
    assert TotalIncidents([p]) == 12;
    var c, d := Position(10.0, 10.0), Position(10.0, 10.001);
    assert !Near(c, p, THRESHOLD) && !Near(d, p, THRESHOLD);
    NearbyOfPair(c, d, p, THRESHOLD);
  }

  /** `find_nearby_incidents` on a two-coordinate segment and a one-point store. */
  lemma NearbyOfPair(a: Position, b: Position, p: IncidentPoint, threshold: real)
    ensures Nearby([a, b], [p], threshold) == if Near(a, p, threshold) || Near(b, p, threshold) then [p] else []
  {
    ScanOne([], a, p, threshold);
    assert [a][..0] == [];
    assert Nearby([a], [p], threshold) == AddIfNear([], a, p, threshold);
    ScanOne(Nearby([a], [p], threshold), b, p, threshold);
    assert [a, b][..1] == [a];
  }

  lemma ScanOne(acc: seq<IncidentPoint>, c: Position, p: IncidentPoint, threshold: real)
    ensures ScanPoints(acc, c, [p], threshold) == AddIfNear(acc, c, p, threshold)
  {
    assert [p][..0] == [];
  }
}
