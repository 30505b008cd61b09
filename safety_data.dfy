/** The incident records the backend keeps in memory, how one raw entry of
    the data file becomes such a record, the load loop over the entries, and
    the two reductions both endpoints apply to a list of records. */
module SafetyData {
  import opened Wrappers
  import Text

  /** One normalised incident point.  Records are compared structurally, so
      two entries with equal fields are the same point. */
  datatype IncidentPoint = IncidentPoint(lat: real, lng: real, incidentCount: int, lighting: string)

  /** One entry of the data file's `safety_points` list, already decoded: each
      field is present or absent. */
  datatype RawPoint = RawPoint(
    coordinates: Option<seq<real>>,
    lat: Option<real>,
    lng: Option<real>,
    incidentCount: Option<int>,
    lighting: Option<string>)

  /** Why an entry cannot be normalised: a `coordinates` list with fewer than
      two numbers (IndexError), or a missing `lat` or `lng` (KeyError). */
  datatype NormalizeError = ShortCoordinates | MissingLatLng

  const DEFAULT_LIGHTING: string := "good"

  /** The lighting label as stored: lower-cased, then stripped. */
  function NormalizeLighting(tag: string): string {
    Text.Strip(Text.Lower(tag))
  }

  /** A normalised label is trimmed, has no upper-case letter, and normalising
      it again changes nothing. */
  lemma NormalizedLightingIsCanonical(tag: string)
    ensures Text.IsTrimmed(NormalizeLighting(tag))
    ensures Text.NoUpper(NormalizeLighting(tag))
    ensures NormalizeLighting(NormalizeLighting(tag)) == NormalizeLighting(tag)
  {
    var low := Text.Lower(tag);
    var r := NormalizeLighting(tag);
    Text.LowerProperties(tag);
    var a, b := Text.StripIsSlice(low);
    assert Text.NoUpper(r) by {
      forall i | 0 <= i < |r| ensures !Text.IsUpper(r[i]) {
        assert r[i] == low[a + i];
      }
    }
    Text.LowerProperties(r);
    Text.StripTrimmed(r);
  }

  /** The normalisation of one entry: a `coordinates` list (read as
      `[lng, lat]`, extra numbers ignored) takes precedence over `lat`/`lng`;
      a missing count is 0 and a missing label is "good". */
  function NormalizePoint(raw: RawPoint): (r: Result<IncidentPoint, NormalizeError>)
    ensures raw.coordinates.Some? ==>
              (r.Success? <==> |raw.coordinates.value| >= 2)
              && (r.Success? ==> r.value.lng == raw.coordinates.value[0] && r.value.lat == raw.coordinates.value[1])
    ensures raw.coordinates.None? ==>
              (r.Success? <==> raw.lat.Some? && raw.lng.Some?)
              && (r.Success? ==> r.value.lat == raw.lat.value && r.value.lng == raw.lng.value)
    ensures r.Success? ==> r.value.incidentCount == raw.incidentCount.GetOr(0)
    ensures r.Success? ==> r.value.lighting == NormalizeLighting(raw.lighting.GetOr(DEFAULT_LIGHTING))
  {
    var count := raw.incidentCount.GetOr(0);
    var lighting := NormalizeLighting(raw.lighting.GetOr(DEFAULT_LIGHTING));
    match raw.coordinates
    case Some(c) =>
      if |c| < 2 then Failure(ShortCoordinates)
      else Success(IncidentPoint(c[1], c[0], count, lighting))
    case None =>
      if raw.lat.None? || raw.lng.None? then Failure(MissingLatLng)
      else Success(IncidentPoint(raw.lat.value, raw.lng.value, count, lighting))
  }

  /** The two input shapes agree: `coordinates: [x, y]` gives the same record
      as `lat: y, lng: x`, whatever else the first entry holds. */
  lemma ShapesAgree(x: real, y: real, lat: Option<real>, lng: Option<real>, count: Option<int>, lighting: Option<string>)
    ensures NormalizePoint(RawPoint(Some([x, y]), lat, lng, count, lighting))
         == NormalizePoint(RawPoint(None, Some(y), Some(x), count, lighting))
  {
  }

  /** The stored label of an entry without one is exactly "good". */
  lemma DefaultLightingIsGood()
    ensures NormalizeLighting(DEFAULT_LIGHTING) == "good"
  {
    assert Text.Lower("good") == "good";
    Text.StripTrimmed("good");
  }

  /** The records a loader keeps from `points` when it normalises with
      `normalize`: each entry in turn, until the first entry that cannot be
      normalised (the exception it raises ends the loop, and the records
      appended so far are returned). */
  function LoadWith(normalize: RawPoint -> Result<IncidentPoint, NormalizeError>, points: seq<RawPoint>): seq<IncidentPoint> {
    if points == [] then []
    else match normalize(points[0])
      case Failure(_) => []
      case Success(p) => [p] + LoadWith(normalize, points[1..])
  }

  /** `data` is the normalisation of a prefix of `points`, and stops short
      only at an entry that fails to normalise. */
  predicate PrefixWith(normalize: RawPoint -> Result<IncidentPoint, NormalizeError>, points: seq<RawPoint>, data: seq<IncidentPoint>) {
    && |data| <= |points|
    && (forall i | 0 <= i < |data| :: normalize(points[i]) == Success(data[i]))
    && (|data| < |points| ==> normalize(points[|data|]).Failure?)
  }

  lemma {:induction false} LoadWithIsPrefix(normalize: RawPoint -> Result<IncidentPoint, NormalizeError>, points: seq<RawPoint>)
    ensures PrefixWith(normalize, points, LoadWith(normalize, points))
  {
    if points != [] && normalize(points[0]).Success? {
      var tail := points[1..];
      LoadWithIsPrefix(normalize, tail);
      var rest := LoadWith(normalize, tail);
      var data := LoadWith(normalize, points);
      assert data == [normalize(points[0]).value] + rest;
      forall i | 0 <= i < |data| ensures normalize(points[i]) == Success(data[i]) {
        if i > 0 {
          assert points[i] == tail[i - 1] && data[i] == rest[i - 1];
        }
      }
      if |data| < |points| {
        assert points[|data|] == tail[|rest|];
      }
    }
  }

  /** The records the loader keeps from `points`. */
  function LoadPoints(points: seq<RawPoint>): seq<IncidentPoint> {
    LoadWith(NormalizePoint, points)
  }

  /** The loaded list is the normalisation of a prefix of the entries, and
      it stops short only at an entry that fails to normalise. */
  lemma LoadPointsIsPrefix(points: seq<RawPoint>)
    ensures PrefixWith(NormalizePoint, points, LoadPoints(points))
  {
    LoadWithIsPrefix(NormalizePoint, points);
  }

  /** Loads the store.  `doc` is the decoded `safety_points` list, or None
      when the file is missing, is not valid JSON or has no such key. */
  method LoadSafetyData(doc: Option<seq<RawPoint>>) returns (data: seq<IncidentPoint>)
    ensures doc.None? ==> data == []
    ensures doc.Some? ==> data == LoadPoints(doc.value)
  {
    data := [];
    if doc.None? {
      return;
    }
    var points := doc.value;
    var i := 0;
    while i < |points|
      invariant 0 <= i <= |points|
      invariant data + LoadPoints(points[i..]) == LoadPoints(points)
    {
      var r := NormalizePoint(points[i]);
      var rest := points[i..];
      assert rest[0] == points[i] && rest[1..] == points[i + 1..];
      if r.Failure? {
        assert LoadPoints(rest) == [];
        assert data + [] == data;
        return;
      }
      assert LoadPoints(rest) == [r.value] + LoadPoints(points[i + 1..]);
      assert (data + [r.value]) + LoadPoints(points[i + 1..]) == data + LoadPoints(rest);
      data := data + [r.value];
      i := i + 1;
    }
  }

  /** `sum(p['incident_count'] for p in s)`. */
  function TotalIncidents(s: seq<IncidentPoint>): int {
    if s == [] then 0 else s[0].incidentCount + TotalIncidents(s[1..])
  }

  /** `sum(1 for p in s if p['lighting'] == tag)`. */
  function LightingCount(s: seq<IncidentPoint>, tag: string): (n: nat)
    ensures n <= |s|
  {
    if s == [] then 0 else (if s[0].lighting == tag then 1 else 0) + LightingCount(s[1..], tag)
  }

  lemma {:induction false} TotalIncidentsAppend(a: seq<IncidentPoint>, b: seq<IncidentPoint>)
    ensures TotalIncidents(a + b) == TotalIncidents(a) + TotalIncidents(b)
  {
    if a == [] {
      assert a + b == b;
    } else {
      assert (a + b)[1..] == a[1..] + b;
      TotalIncidentsAppend(a[1..], b);
    }
  }

  lemma {:induction false} LightingCountAppend(a: seq<IncidentPoint>, b: seq<IncidentPoint>, tag: string)
    ensures LightingCount(a + b, tag) == LightingCount(a, tag) + LightingCount(b, tag)
  {
    if a == [] {
      assert a + b == b;
    } else {
      assert (a + b)[1..] == a[1..] + b;
      LightingCountAppend(a[1..], b, tag);
    }
  }

  /** Taking the record at position `k` out of a list takes its share out of
      both reductions. */
  lemma RemoveAt(b: seq<IncidentPoint>, k: nat, tag: string)
    requires k < |b|
    ensures TotalIncidents(b) == b[k].incidentCount + TotalIncidents(b[..k] + b[k + 1..])
    ensures LightingCount(b, tag) == LightingCount([b[k]], tag) + LightingCount(b[..k] + b[k + 1..], tag)
  {
    assert b == b[..k] + ([b[k]] + b[k + 1..]);
    TotalIncidentsAppend(b[..k], [b[k]] + b[k + 1..]);
    TotalIncidentsAppend([b[k]], b[k + 1..]);
    TotalIncidentsAppend(b[..k], b[k + 1..]);
    LightingCountAppend(b[..k], [b[k]] + b[k + 1..], tag);
    LightingCountAppend([b[k]], b[k + 1..], tag);
    LightingCountAppend(b[..k], b[k + 1..], tag);
  }

  lemma MultisetRemoveAt<T>(a: seq<T>, b: seq<T>, k: nat)
    requires a != [] && k < |b| && b[k] == a[0]
    requires multiset(a) == multiset(b)
    ensures multiset(a[1..]) == multiset(b[..k] + b[k + 1..])
  {
    var rest := b[..k] + b[k + 1..];
    assert a == [a[0]] + a[1..];
    assert b == b[..k] + [b[k]] + b[k + 1..];
    assert multiset(a[1..]) == multiset(a) - multiset{a[0]};
    assert multiset(b) == multiset(b[..k]) + multiset{b[k]} + multiset(b[k + 1..]);
    assert multiset(rest) == multiset(b[..k]) + multiset(b[k + 1..]);
  }

  /** Both reductions depend only on which records are in the list, counted
      with their multiplicity, and not on their order. */
  lemma {:induction false} ReductionsIgnoreOrder(a: seq<IncidentPoint>, b: seq<IncidentPoint>, tag: string)
    requires multiset(a) == multiset(b)
    ensures TotalIncidents(a) == TotalIncidents(b)
    ensures LightingCount(a, tag) == LightingCount(b, tag)
  {
    if a == [] {
      assert |b| == |multiset(b)| == 0;
    } else {
      assert a[0] in multiset(b);
      var k :| 0 <= k < |b| && b[k] == a[0];
      MultisetRemoveAt(a, b, k);
      ReductionsIgnoreOrder(a[1..], b[..k] + b[k + 1..], tag);
      RemoveAt(b, k, tag);
    }
  }

  /** Records with different labels are counted apart, so the counts of
      distinct labels never add up to more than the length of the list. */
  lemma {:induction false} LightingCountsBounded(s: seq<IncidentPoint>, l1: string, l2: string, l3: string)
    requires l1 != l2 && l1 != l3 && l2 != l3
    ensures LightingCount(s, l1) + LightingCount(s, l2) + LightingCount(s, l3) <= |s|
  {
    if s != [] {
      LightingCountsBounded(s[1..], l1, l2, l3);
    }
  }

  /** Some record carries the label exactly when its count is positive. */
  lemma {:induction false} LightingCountPositive(s: seq<IncidentPoint>, tag: string)
    ensures LightingCount(s, tag) > 0 <==> exists i | 0 <= i < |s| :: s[i].lighting == tag
  {
    if s != [] {
      LightingCountPositive(s[1..], tag);
      if exists i | 0 <= i < |s| :: s[i].lighting == tag {
        var i :| 0 <= i < |s| && s[i].lighting == tag;
        if i > 0 {
          assert s[1..][i - 1].lighting == tag;
        }
      }
      if exists i | 0 <= i < |s[1..]| :: s[1..][i].lighting == tag {
        var i :| 0 <= i < |s[1..]| && s[1..][i].lighting == tag;
        assert s[i + 1].lighting == tag;
      }
    }
  }
}
