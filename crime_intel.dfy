/** The `crime-intel` handler: the statistics over the incident store, the
    deterministic insights (summary, trend, alerts) given when no AI service
    is configured, and the unwrapping of a fenced AI answer. */
module CrimeIntel {
  import opened Wrappers
  import opened Json
  import opened Text
  import opened SafetyData

  /** The `stats` object of the answer. */
  datatype SafetyStats = SafetyStats(
    totalIncidents: int,
    avgIncidentsPerLocation: real,
    poorLightingCount: nat,
    moderateLightingCount: nat,
    goodLightingCount: nat,
    totalLocations: nat)

  /** `aggregate_safety_stats`. */
  function AggregateStats(data: seq<IncidentPoint>): (r: SafetyStats)
    ensures data == [] ==> r == SafetyStats(0, 0.0, 0, 0, 0, 0)
    ensures r.totalIncidents == TotalIncidents(data) && r.totalLocations == |data|
    ensures r.poorLightingCount == LightingCount(data, "poor")
    ensures r.moderateLightingCount == LightingCount(data, "moderate")
    ensures r.goodLightingCount == LightingCount(data, "good")
    ensures r.poorLightingCount + r.moderateLightingCount + r.goodLightingCount <= r.totalLocations
    ensures data != [] ==> r.avgIncidentsPerLocation * (|data| as real) == r.totalIncidents as real
  {
    LightingCountsBounded(data, "poor", "moderate", "good");
    if data == [] then SafetyStats(0, 0.0, 0, 0, 0, 0)
    else
      var total := TotalIncidents(data);
      SafetyStats(total, total as real / |data| as real,
                  LightingCount(data, "poor"), LightingCount(data, "moderate"), LightingCount(data, "good"), |data|)
  }

  /** The statistics depend only on which records the store holds, not on
      their order. */
  lemma StatsIgnoreOrder(a: seq<IncidentPoint>, b: seq<IncidentPoint>)
    requires multiset(a) == multiset(b)
    ensures AggregateStats(a) == AggregateStats(b)
  {
    assert |a| == |multiset(a)| == |multiset(b)| == |b|;
    ReductionsIgnoreOrder(a, b, "poor");
    ReductionsIgnoreOrder(a, b, "moderate");
    ReductionsIgnoreOrder(a, b, "good");
  }

  /** The four summary templates; each carries the values it interpolates. */
  datatype Summary =
    | NoIncidents(area: Json)
    | LowIncidents(area: Json, total: int, locations: nat)
    | ModerateConcerns(area: Json, total: int, locations: nat)
    | SignificantConcerns(area: Json, total: int, locations: nat)

  /** The three trend templates. */
  datatype Trend =
    | PoorLightingTrend(poorLocations: nat)
    | AboveAverageRate(rate: real)
    | AverageRate(rate: real)

  /** The alert templates, including the constant one given when nothing is raised. */
  datatype Alert =
    | PoorLightingAlert(poorLocations: nat)
    | HighTotalAlert(total: int)
    | HighIncidentLocationsAlert(locations: nat)
    | ModerateLightingAlert(moderateLocations: nat)
    | NoCriticalAlerts

  datatype Insights = Insights(summary: Summary, trend: Trend, alerts: seq<Alert>)

  /** How grave a summary is. */
  function SummaryRank(s: Summary): nat {
    match s
    case NoIncidents(_) => 0
    case LowIncidents(_, _, _) => 1
    case ModerateConcerns(_, _, _) => 2
    case SignificantConcerns(_, _, _) => 3
  }

  /** The summary: one template, chosen by the total alone. */
  function SummaryFor(stats: SafetyStats, area: Json): (r: Summary)
    ensures r.area == area
    ensures r.NoIncidents? <==> stats.totalIncidents == 0
    ensures r.LowIncidents? <==> stats.totalIncidents != 0 && stats.totalIncidents < 10
    ensures r.ModerateConcerns? <==> 10 <= stats.totalIncidents < 30
    ensures r.SignificantConcerns? <==> 30 <= stats.totalIncidents
    ensures !r.NoIncidents? ==> r.total == stats.totalIncidents && r.locations == stats.totalLocations
  {
    var total := stats.totalIncidents;
    if total == 0 then NoIncidents(area)
    else if total < 10 then LowIncidents(area, total, stats.totalLocations)
    else if total < 30 then ModerateConcerns(area, total, stats.totalLocations)
    else SignificantConcerns(area, total, stats.totalLocations)
  }

  /** Over non-negative totals, a larger total never gives a milder summary. */
  lemma SummaryMonotone(s1: SafetyStats, s2: SafetyStats, area: Json)
    requires 0 <= s1.totalIncidents <= s2.totalIncidents
    ensures SummaryRank(SummaryFor(s1, area)) <= SummaryRank(SummaryFor(s2, area))
  {
  }

  /** The trend: the lighting template first, then the rate templates. */
  function TrendFor(stats: SafetyStats): (r: Trend)
    ensures r.PoorLightingTrend? <==> stats.poorLightingCount > stats.goodLightingCount
    ensures r.PoorLightingTrend? ==> r == PoorLightingTrend(stats.poorLightingCount)
    ensures r.AboveAverageRate? <==>
              stats.poorLightingCount <= stats.goodLightingCount && stats.avgIncidentsPerLocation > 5.0
    ensures !r.PoorLightingTrend? ==> r.rate == stats.avgIncidentsPerLocation
  {
    if stats.poorLightingCount > stats.goodLightingCount then PoorLightingTrend(stats.poorLightingCount)
    else if stats.avgIncidentsPerLocation > 5.0 then AboveAverageRate(stats.avgIncidentsPerLocation)
    else AverageRate(stats.avgIncidentsPerLocation)
  }

  /** While poor lighting outweighs good lighting, the average plays no part. */
  lemma TrendIgnoresAverageWhenPoorLit(s1: SafetyStats, s2: SafetyStats)
    requires s1.poorLightingCount == s2.poorLightingCount && s1.goodLightingCount == s2.goodLightingCount
    requires s1.poorLightingCount > s1.goodLightingCount
    ensures TrendFor(s1) == TrendFor(s2)
  {
  }

  /** `[p for p in data if p.get('incident_count', 0) >= 5]`. */
  function HighIncidentLocations(data: seq<IncidentPoint>): (r: seq<IncidentPoint>)
    ensures |r| <= |data|
    ensures forall i | 0 <= i < |r| :: r[i] in data && r[i].incidentCount >= 5
    ensures forall i | 0 <= i < |data| :: data[i].incidentCount >= 5 ==> data[i] in r
  {
    if data == [] then []
    else
      var rest := HighIncidentLocations(data[1..]);
      assert forall i | 1 <= i < |data| :: data[i] == data[1..][i - 1];
      (if data[0].incidentCount >= 5 then [data[0]] else []) + rest
  }

  /** The filter keeps each record with five or more incidents as many times
      as the store holds it, and no other record; so the number it reports is
      the number of such records, counted with repetition. */
  lemma {:induction false} HighIncidentMultiplicity(data: seq<IncidentPoint>)
    ensures forall x :: multiset(HighIncidentLocations(data))[x] == if x.incidentCount >= 5 then multiset(data)[x] else 0
  {
    if data != [] {
      var tail := data[1..];
      HighIncidentMultiplicity(tail);
      var head := if data[0].incidentCount >= 5 then [data[0]] else [];
      var r, rest := HighIncidentLocations(data), HighIncidentLocations(tail);
      assert r == head + rest;
      assert multiset(r) == multiset(head) + multiset(rest);
      assert multiset(data) == multiset{data[0]} + multiset(tail) by {
        assert data == [data[0]] + tail;
      }
      forall x: IncidentPoint
        ensures multiset(r)[x] == if x.incidentCount >= 5 then multiset(data)[x] else 0
      {
        assert multiset(r)[x] == multiset(head)[x] + multiset(rest)[x];
        assert multiset(data)[x] == multiset{data[0]}[x] + multiset(tail)[x];
      }
    }
  }

  lemma {:induction false} HighIncidentLocationsAppend(a: seq<IncidentPoint>, b: seq<IncidentPoint>)
    ensures HighIncidentLocations(a + b) == HighIncidentLocations(a) + HighIncidentLocations(b)
  {
    if a == [] {
      assert a + b == b;
    } else {
      assert (a + b)[1..] == a[1..] + b;
      HighIncidentLocationsAppend(a[1..], b);
    }
  }

  /** Taking the record at position `k` out of the store takes its share out
      of the high-incident locations. */
  lemma HighIncidentRemoveAt(b: seq<IncidentPoint>, k: nat)
    requires k < |b|
    ensures |HighIncidentLocations(b)| == |HighIncidentLocations([b[k]])| + |HighIncidentLocations(b[..k] + b[k + 1..])|
  {
    assert b == b[..k] + ([b[k]] + b[k + 1..]);
    HighIncidentLocationsAppend(b[..k], [b[k]] + b[k + 1..]);
    HighIncidentLocationsAppend([b[k]], b[k + 1..]);
    HighIncidentLocationsAppend(b[..k], b[k + 1..]);
  }

  /** The number of high-incident locations does not depend on the order of the store. */
  lemma {:induction false} HighIncidentCountIgnoresOrder(a: seq<IncidentPoint>, b: seq<IncidentPoint>)
    requires multiset(a) == multiset(b)
    ensures |HighIncidentLocations(a)| == |HighIncidentLocations(b)|
  {
    if a == [] {
      assert |b| == |multiset(b)| == 0;
    } else {
      assert a[0] in multiset(b);
      var k :| 0 <= k < |b| && b[k] == a[0];
      MultisetRemoveAt(a, b, k);
      HighIncidentCountIgnoresOrder(a[1..], b[..k] + b[k + 1..]);
      HighIncidentRemoveAt(b, k);
      HighIncidentRemoveAt(a, 0);
      assert a[..0] + a[1..] == a[1..];
    }
  }

  /** The position of each alert in the fixed order of the checks. */
  function AlertRank(a: Alert): nat {
    match a
    case PoorLightingAlert(_) => 0
    case HighTotalAlert(_) => 1
    case HighIncidentLocationsAlert(_) => 2
    case ModerateLightingAlert(_) => 3
    case NoCriticalAlerts => 4
  }

  /** One of the four alert conditions holds. */
  predicate AnyAlertRaised(stats: SafetyStats, highLocations: nat) {
    stats.poorLightingCount > 0 || stats.totalIncidents > 20 || highLocations > 0 || stats.moderateLightingCount > 0
  }

  /** `[a]` when the condition holds, nothing otherwise. */
  function AlertIf(condition: bool, a: Alert): seq<Alert> {
    if condition then [a] else []
  }

  /** The alert list, given the statistics and the number of high-incident
      locations: each condition that holds adds its alert, in the order of the
      checks, and the constant alert stands in for an empty list. */
  function AlertsFor(stats: SafetyStats, highLocations: nat): seq<Alert> {
    var raised := RaisedAlerts(stats, highLocations);
    if raised == [] then [NoCriticalAlerts] else raised
  }

  /** The four conditional pieces of the alert list, the raised alerts. */
  function RaisedAlerts(stats: SafetyStats, highLocations: nat): seq<Alert> {
    AlertIf(stats.poorLightingCount > 0, PoorLightingAlert(stats.poorLightingCount))
    + AlertIf(stats.totalIncidents > 20, HighTotalAlert(stats.totalIncidents))
    + AlertIf(highLocations > 0, HighIncidentLocationsAlert(highLocations))
    + AlertIf(stats.moderateLightingCount > 0, ModerateLightingAlert(stats.moderateLightingCount))
  }

  lemma RaisedAlertsOrdered(stats: SafetyStats, highLocations: nat)
    ensures AlertsFor(stats, highLocations) == (if RaisedAlerts(stats, highLocations) == [] then [NoCriticalAlerts]
                                                 else RaisedAlerts(stats, highLocations))
    ensures var r := RaisedAlerts(stats, highLocations);
      && |r| <= 4
      && (r == [] <==> !AnyAlertRaised(stats, highLocations))
      && InCheckOrder(r)
      && (forall a | a in r :: AlertRank(a) < 4)
  {
    var p := AlertIf(stats.poorLightingCount > 0, PoorLightingAlert(stats.poorLightingCount));
    var t := AlertIf(stats.totalIncidents > 20, HighTotalAlert(stats.totalIncidents));
    var h := AlertIf(highLocations > 0, HighIncidentLocationsAlert(highLocations));
    var m := AlertIf(stats.moderateLightingCount > 0, ModerateLightingAlert(stats.moderateLightingCount));
    assert RaisedAlerts(stats, highLocations) == p + t + h + m;
    PiecesInCheckOrder(p, t, h, m);
  }

  lemma PiecesInCheckOrder(p: seq<Alert>, t: seq<Alert>, h: seq<Alert>, m: seq<Alert>)
    requires |p| <= 1 && |t| <= 1 && |h| <= 1 && |m| <= 1
    requires forall a | a in p :: AlertRank(a) == 0
    requires forall a | a in t :: AlertRank(a) == 1
    requires forall a | a in h :: AlertRank(a) == 2
    requires forall a | a in m :: AlertRank(a) == 3
    ensures InCheckOrder(p + t + h + m)
  {
    ConcatInCheckOrder(p, t);
    assert forall a | a in p + t :: AlertRank(a) <= 1;
    ConcatInCheckOrder(p + t, h);
    assert forall a | a in p + t + h :: AlertRank(a) <= 2;
    ConcatInCheckOrder(p + t + h, m);
  }

  lemma RaisedAlertsMembership(stats: SafetyStats, highLocations: nat)
    ensures var r := RaisedAlerts(stats, highLocations);
      && (PoorLightingAlert(stats.poorLightingCount) in r <==> stats.poorLightingCount > 0)
      && (HighTotalAlert(stats.totalIncidents) in r <==> stats.totalIncidents > 20)
      && (HighIncidentLocationsAlert(highLocations) in r <==> highLocations > 0)
      && (ModerateLightingAlert(stats.moderateLightingCount) in r <==> stats.moderateLightingCount > 0)
      && (forall a | a in r :: a in [PoorLightingAlert(stats.poorLightingCount), HighTotalAlert(stats.totalIncidents),
                                      HighIncidentLocationsAlert(highLocations),
                                      ModerateLightingAlert(stats.moderateLightingCount)])
  {
  }

  /** The alert list is never empty and holds at most the four raised alerts;
      it is the constant alert alone exactly when no condition holds; the
      alerts keep the order of the checks, each at most once; and each alert
      is present exactly when its condition holds, carrying its count. */
  lemma AlertsForProperties(stats: SafetyStats, highLocations: nat)
    ensures var r := AlertsFor(stats, highLocations);
      && 1 <= |r| <= 4
      && (r == [NoCriticalAlerts] <==> !AnyAlertRaised(stats, highLocations))
      && InCheckOrder(r)
      && (PoorLightingAlert(stats.poorLightingCount) in r <==> stats.poorLightingCount > 0)
      && (HighTotalAlert(stats.totalIncidents) in r <==> stats.totalIncidents > 20)
      && (HighIncidentLocationsAlert(highLocations) in r <==> highLocations > 0)
      && (ModerateLightingAlert(stats.moderateLightingCount) in r <==> stats.moderateLightingCount > 0)
      && (forall i | 0 <= i < |r| :: r[i] in [PoorLightingAlert(stats.poorLightingCount), HighTotalAlert(stats.totalIncidents),
                                             HighIncidentLocationsAlert(highLocations),
                                             ModerateLightingAlert(stats.moderateLightingCount), NoCriticalAlerts])
  {
    RaisedAlertsOrdered(stats, highLocations);
    RaisedAlertsMembership(stats, highLocations);
    var raised := RaisedAlerts(stats, highLocations);
    if raised != [] {
      assert raised[0] in raised;
      assert raised != [NoCriticalAlerts];
      forall i | 0 <= i < |raised|
        ensures raised[i] in [PoorLightingAlert(stats.poorLightingCount), HighTotalAlert(stats.totalIncidents),
                              HighIncidentLocationsAlert(highLocations),
                              ModerateLightingAlert(stats.moderateLightingCount), NoCriticalAlerts]
      {
        assert raised[i] in raised;
      }
    }
  }

  /** Ranks strictly increase along the list. */
  predicate InCheckOrder(r: seq<Alert>) {
    forall i, j | 0 <= i < j < |r| :: AlertRank(r[i]) < AlertRank(r[j])
  }

  lemma ConcatInCheckOrder(a: seq<Alert>, b: seq<Alert>)
    requires InCheckOrder(a) && InCheckOrder(b)
    requires forall x, y | x in a && y in b :: AlertRank(x) < AlertRank(y)
    ensures InCheckOrder(a + b)
  {
    var r := a + b;
    forall i, j | 0 <= i < j < |r| ensures AlertRank(r[i]) < AlertRank(r[j]) {
      if j < |a| {
        assert r[i] == a[i] && r[j] == a[j];
      } else if i >= |a| {
        assert r[i] == b[i - |a|] && r[j] == b[j - |a|];
      } else {
        assert r[i] == a[i] && r[j] == b[j - |a|];
        assert a[i] in a && b[j - |a|] in b;
      }
    }
  }

  /** `generate_basic_insights(safety_data, stats, area)`. */
  function InsightsFor(data: seq<IncidentPoint>, stats: SafetyStats, area: Json): Insights {
    Insights(SummaryFor(stats, area), TrendFor(stats), AlertsFor(stats, |HighIncidentLocations(data)|))
  }

  /** The fallback insights, with the alert list built by successive appends. */
  method BasicInsights(data: seq<IncidentPoint>, stats: SafetyStats, area: Json) returns (ins: Insights)
    ensures ins == InsightsFor(data, stats, area)
  {
    var summary := SummaryFor(stats, area);
    var trend := TrendFor(stats);
    var alerts: seq<Alert> := [];
    if stats.poorLightingCount > 0 {
      alerts := alerts + [PoorLightingAlert(stats.poorLightingCount)];
    }
    ghost var p := AlertIf(stats.poorLightingCount > 0, PoorLightingAlert(stats.poorLightingCount));
    assert alerts == p;
    if stats.totalIncidents > 20 {
      alerts := alerts + [HighTotalAlert(stats.totalIncidents)];
    }
    ghost var t := AlertIf(stats.totalIncidents > 20, HighTotalAlert(stats.totalIncidents));
    assert alerts == p + t;
    var highIncidentLocations := HighIncidentLocations(data);
    if highIncidentLocations != [] {
      alerts := alerts + [HighIncidentLocationsAlert(|highIncidentLocations|)];
    }
    ghost var h := AlertIf(|highIncidentLocations| > 0, HighIncidentLocationsAlert(|highIncidentLocations|));
    assert alerts == p + t + h;
    if stats.moderateLightingCount > 0 {
      alerts := alerts + [ModerateLightingAlert(stats.moderateLightingCount)];
    }
    ghost var m := AlertIf(stats.moderateLightingCount > 0, ModerateLightingAlert(stats.moderateLightingCount));
    assert alerts == p + t + h + m == RaisedAlerts(stats, |highIncidentLocations|);
    if alerts == [] {
      alerts := alerts + [NoCriticalAlerts];
    }
    ins := Insights(summary, trend, alerts);
  }

  /** Read against the store itself: each kind of alert is raised exactly when
      some record calls for it. */
  lemma AlertKindsFromStore(data: seq<IncidentPoint>)
    ensures var alerts := AlertsFor(AggregateStats(data), |HighIncidentLocations(data)|);
      && ((exists a | a in alerts :: a.PoorLightingAlert?) <==> exists i | 0 <= i < |data| :: data[i].lighting == "poor")
      && ((exists a | a in alerts :: a.ModerateLightingAlert?) <==> exists i | 0 <= i < |data| :: data[i].lighting == "moderate")
      && ((exists a | a in alerts :: a.HighIncidentLocationsAlert?) <==> exists i | 0 <= i < |data| :: data[i].incidentCount >= 5)
  {
    var stats := AggregateStats(data);
    var high := |HighIncidentLocations(data)|;
    var alerts := AlertsFor(stats, high);
    AlertsForProperties(stats, high);
    OneAlertOfEachKind(alerts, stats, high);
    LightingCountPositive(data, "poor");
    LightingCountPositive(data, "moderate");
    HighIncidentsPresent(data);
  }

  /** Each alert reports the figure of the statistics it was raised on. */
  lemma AlertsCarryStats(stats: SafetyStats, highLocations: nat)
    ensures var r := AlertsFor(stats, highLocations);
      forall i | 0 <= i < |r| ::
        && (r[i].PoorLightingAlert? ==> r[i].poorLocations == stats.poorLightingCount)
        && (r[i].HighTotalAlert? ==> r[i].total == stats.totalIncidents)
        && (r[i].HighIncidentLocationsAlert? ==> r[i].locations == highLocations)
        && (r[i].ModerateLightingAlert? ==> r[i].moderateLocations == stats.moderateLightingCount)
  {
    AlertsForProperties(stats, highLocations);
  }

  /** Each raised alert reports the store's own figure: the poorly and
      moderately lit counts, the incident total, and the number of
      high-incident records (fixed by `HighIncidentMultiplicity`). */
  lemma AlertCountsFromStore(data: seq<IncidentPoint>)
    ensures var r := AlertsFor(AggregateStats(data), |HighIncidentLocations(data)|);
      forall i | 0 <= i < |r| ::
        && (r[i].PoorLightingAlert? ==> r[i].poorLocations == LightingCount(data, "poor"))
        && (r[i].HighTotalAlert? ==> r[i].total == TotalIncidents(data))
        && (r[i].HighIncidentLocationsAlert? ==> r[i].locations == |HighIncidentLocations(data)|)
        && (r[i].ModerateLightingAlert? ==> r[i].moderateLocations == LightingCount(data, "moderate"))
  {
    var stats := AggregateStats(data);
    assert stats.poorLightingCount == LightingCount(data, "poor");
    assert stats.moderateLightingCount == LightingCount(data, "moderate");
    assert stats.totalIncidents == TotalIncidents(data);
    AlertsCarryStats(stats, |HighIncidentLocations(data)|);
  }

  /** The constant alert is given exactly when no record is poorly or
      moderately lit, none has five or more incidents, and the total is at
      most 20. */
  lemma NoCriticalFromStore(data: seq<IncidentPoint>)
    ensures AlertsFor(AggregateStats(data), |HighIncidentLocations(data)|) == [NoCriticalAlerts] <==>
            TotalIncidents(data) <= 20
            && forall i | 0 <= i < |data| ::
                 data[i].lighting != "poor" && data[i].lighting != "moderate" && data[i].incidentCount < 5
  {
    var stats := AggregateStats(data);
    var high := |HighIncidentLocations(data)|;
    AlertsForProperties(stats, high);
    assert AlertsFor(stats, high) == [NoCriticalAlerts] <==> !AnyAlertRaised(stats, high);
    LightingCountPositive(data, "poor");
    LightingCountPositive(data, "moderate");
    HighIncidentsPresent(data);
  }

  lemma HighIncidentsPresent(data: seq<IncidentPoint>)
    ensures |HighIncidentLocations(data)| > 0 <==> exists i | 0 <= i < |data| :: data[i].incidentCount >= 5
  {
    var high := HighIncidentLocations(data);
    if high != [] {
      assert high[0] in data;
    }
  }

  /** Where every alert is one of the five built from `stats`, each kind is
      present exactly when the alert carrying its count is. */
  lemma OneAlertOfEachKind(alerts: seq<Alert>, stats: SafetyStats, high: nat)
    requires forall i | 0 <= i < |alerts| :: alerts[i] in [PoorLightingAlert(stats.poorLightingCount), HighTotalAlert(stats.totalIncidents),
                                                      HighIncidentLocationsAlert(high),
                                                      ModerateLightingAlert(stats.moderateLightingCount), NoCriticalAlerts]
    ensures (exists a | a in alerts :: a.PoorLightingAlert?) <==> PoorLightingAlert(stats.poorLightingCount) in alerts
    ensures (exists a | a in alerts :: a.ModerateLightingAlert?) <==> ModerateLightingAlert(stats.moderateLightingCount) in alerts
    ensures (exists a | a in alerts :: a.HighIncidentLocationsAlert?) <==> HighIncidentLocationsAlert(high) in alerts
  {
    forall a | a in alerts
      ensures a in [PoorLightingAlert(stats.poorLightingCount), HighTotalAlert(stats.totalIncidents),
                    HighIncidentLocationsAlert(high), ModerateLightingAlert(stats.moderateLightingCount), NoCriticalAlerts]
    {
      var i :| 0 <= i < |alerts| && alerts[i] == a;
    }
  }

  /** The insights depend only on which records the store holds, not on their order. */
  lemma InsightsIgnoreOrder(a: seq<IncidentPoint>, b: seq<IncidentPoint>, area: Json)
    requires multiset(a) == multiset(b)
    ensures InsightsFor(a, AggregateStats(a), area) == InsightsFor(b, AggregateStats(b), area)
  {
    StatsIgnoreOrder(a, b);
    HighIncidentCountIgnoresOrder(a, b);
  }

  const FENCE: string := "```"
  const JSON_FENCE: string := "```json"

  /** The text handed to the JSON decoder: the answer stripped, then the
      content of its first ```json fence, or failing that of its first plain
      fence, stripped again; an answer without a fence is taken whole. */
  function FencePayload(text: string): (r: string)
    ensures IsTrimmed(r)
  {
    var t := Strip(text);
    if Contains(t, JSON_FENCE) then Strip(SplitFirst(SplitFirst(After(t, JSON_FENCE), JSON_FENCE), FENCE))
    else if Contains(t, FENCE) then Strip(SplitFirst(SplitFirst(After(t, FENCE), FENCE), FENCE))
    else t
  }

  lemma StripKeepsAbsence(s: string, pat: string)
    requires !Contains(s, pat)
    ensures !Contains(Strip(s), pat)
  {
    var a, b := StripIsSlice(s);
    SliceKeepsAbsence(s, pat, a, b);
  }

  lemma JsonFenceHasFence(s: string)
    requires Contains(s, JSON_FENCE)
    ensures Contains(s, FENCE)
  {
    var i :| 0 <= i <= |s| && OccursAt(s, JSON_FENCE, i);
    PrefixOccurs(s, JSON_FENCE, FENCE, i);
  }

  /** The payload never holds a fence. */
  lemma PayloadHasNoFence(text: string)
    ensures !Contains(FencePayload(text), FENCE)
  {
    var t := Strip(text);
    if Contains(t, JSON_FENCE) {
      var x := SplitFirst(SplitFirst(After(t, JSON_FENCE), JSON_FENCE), FENCE);
      assert FencePayload(text) == Strip(x);
      StripKeepsAbsence(x, FENCE);
    } else if Contains(t, FENCE) {
      var x := SplitFirst(SplitFirst(After(t, FENCE), FENCE), FENCE);
      assert FencePayload(text) == Strip(x);
      StripKeepsAbsence(x, FENCE);
    } else {
      assert FencePayload(text) == t;
    }
  }

  /** A trimmed text without a fence is its own payload. */
  lemma FenceFreeIsOwnPayload(s: string)
    requires IsTrimmed(s) && !Contains(s, FENCE)
    ensures FencePayload(s) == s
  {
    StripTrimmed(s);
    if Contains(s, JSON_FENCE) {
      JsonFenceHasFence(s);
    }
  }

  /** An answer without a fence is only stripped; the payload never holds a
      fence; and unwrapping a payload again changes nothing. */
  lemma FencePayloadProperties(text: string)
    ensures !Contains(Strip(text), FENCE) ==> FencePayload(text) == Strip(text)
    ensures !Contains(FencePayload(text), FENCE)
    ensures FencePayload(FencePayload(text)) == FencePayload(text)
  {
    if !Contains(Strip(text), FENCE) {
      assert !Contains(Strip(text), JSON_FENCE) by {
        if Contains(Strip(text), JSON_FENCE) {
          JsonFenceHasFence(Strip(text));
        }
      }
    }
    PayloadHasNoFence(text);
    FenceFreeIsOwnPayload(FencePayload(text));
  }

  /** With a ```json fence, the payload is what follows the fence up to the
      next ```, stripped, unless that ``` runs into a second ```json (as in
      "x````json", where the second split keeps the stray backtick). */
  lemma JsonFencePayload(text: string)
    requires Contains(Strip(text), JSON_FENCE)
    ensures var u := After(Strip(text), JSON_FENCE);
            var v, w := SplitFirst(u, JSON_FENCE), SplitFirst(u, FENCE);
            !(|v| - |FENCE| < |w| < |v|) ==> FencePayload(text) == Strip(w)
  {
    var u := After(Strip(text), JSON_FENCE);
    assert FencePayload(text) == Strip(SplitFirst(SplitFirst(u, JSON_FENCE), FENCE));
    if Contains(u, JSON_FENCE) {
      SplitAtJsonFence(u);
    }
  }

  /** Cutting `u` at its first ```json and then at the first ``` is cutting
      it at its first ```, unless that ``` overlaps the ```json. */
  lemma SplitAtJsonFence(u: string)
    requires Contains(u, JSON_FENCE)
    ensures var v, w := SplitFirst(u, JSON_FENCE), SplitFirst(u, FENCE);
            !(|v| - |FENCE| < |w| < |v|) ==> SplitFirst(v, FENCE) == w
  {
    var v, w := SplitFirst(u, JSON_FENCE), SplitFirst(u, FENCE);
    PrefixOccurs(u, JSON_FENCE, FENCE, |v|);
    assert Contains(u, FENCE);
    assert |w| <= |v|;
    if |w| == |v| {
      assert w == v;
    } else if |w| + |FENCE| <= |v| {
      SplitBeforeCut(u, v, w);
    }
  }

  lemma SplitBeforeCut(u: string, v: string, w: string)
    requires v == SplitFirst(u, JSON_FENCE) && w == SplitFirst(u, FENCE)
    requires OccursAt(u, FENCE, |w|) && |w| + |FENCE| <= |v|
    ensures SplitFirst(v, FENCE) == w
  {
    assert v[|w|..|w| + |FENCE|] == u[|w|..|w| + |FENCE|];
    assert OccursAt(v, FENCE, |w|);
    var x := SplitFirst(v, FENCE);
    assert OccursAt(v, FENCE, |x|);
    assert |x| <= |w|;
    assert u[|x|..|x| + |FENCE|] == v[|x|..|x| + |FENCE|];
    assert OccursAt(u, FENCE, |x|);
  }

  /** The stray backtick: after "```json" comes "A`" and then a second
      "```json"; the payload keeps the backtick that the text up to the next
      ``` would drop. */
  lemma JsonFenceRunIntoSecondFence()
    ensures FencePayload("```jsonA````json") == "A`"
  {
    StrayBacktickText();
    StrayBacktickAfter();
    StrayBacktickSplit();
    StrayBacktickPiece();
  }

  lemma StrayBacktickAfter()
    ensures Contains("```jsonA````json", JSON_FENCE)
    ensures After("```jsonA````json", JSON_FENCE) == "A````json"
  {
    StrayBacktickOpening();
    var text := "```jsonA````json";
    assert OccursAt(text, JSON_FENCE, 0);
    assert text[7..] == "A````json";
  }

  lemma StrayBacktickSplit()
    ensures SplitFirst("A````json", JSON_FENCE) == "A`"
  {
    StrayBacktickRest();
    var u := "A````json";
    assert u[..2] == "A`";
  }

  lemma StrayBacktickText()
    ensures Strip("```jsonA````json") == "```jsonA````json"
    ensures IndexOf("```jsonA````json", JSON_FENCE) == Some(0)
  {
    var text := "```jsonA````json";
    assert IsTrimmed(text) by {
      assert text[0] == '`' && text[|text| - 1] == 'n';
    }
    StripTrimmed(text);
    StrayBacktickOpening();
  }

  lemma StrayBacktickOpening()
    ensures IndexOf("```jsonA````json", JSON_FENCE) == Some(0)
  {
    var text := "```jsonA````json";
    assert text[0..7] == JSON_FENCE;
    assert OccursAt(text, JSON_FENCE, 0);
  }

  lemma StrayBacktickRest()
    ensures IndexOf("A````json", JSON_FENCE) == Some(2)
  {
    var u := "A````json";
    assert u[0..7][0] != JSON_FENCE[0];
    assert !OccursAt(u, JSON_FENCE, 0);
    assert u[1..8][3] != JSON_FENCE[3];
    assert !OccursAt(u, JSON_FENCE, 1);
    assert u[2..9] == JSON_FENCE;
    assert OccursAt(u, JSON_FENCE, 2);
    assert FindFrom(u, JSON_FENCE, 2) == Some(2);
    assert FindFrom(u, JSON_FENCE, 1) == Some(2);
  }

  lemma StrayBacktickPiece()
    ensures Strip(SplitFirst("A`", FENCE)) == "A`"
  {
    var v := "A`";
    assert !Contains(v, FENCE);
    assert !IsSpace(v[0]) && !IsSpace(v[1]);
    StripTrimmed(v);
  }

  /** With only plain fences, the payload is the text between the first two. */
  lemma PlainFencePayload(text: string)
    requires !Contains(Strip(text), JSON_FENCE) && Contains(Strip(text), FENCE)
    ensures FencePayload(text) == Strip(SplitFirst(After(Strip(text), FENCE), FENCE))
  {
  }

  /** The two request fields the handler reads. */
  datatype IntelRequest = IntelRequest(area: Json, timeWindow: Json)

  /** The start of the handler: an empty body is refused, any other body must
      be an object (`.get` raises otherwise), and the two fields default to
      "" and "last_7_days". */
  function ParseIntelRequest(body: Json): (r: Result<IntelRequest, ApiError>)
    ensures !Truthy(body) ==> r == Failure(EmptyRequestBody)
    ensures Truthy(body) && !body.JObj? ==> r == Failure(InternalServerError)
    ensures r.Success? <==> Truthy(body) && body.JObj?
    ensures r.Success? ==> r.value.area == (if "area" in body.fields then body.fields["area"] else JStr(""))
    ensures r.Success? ==> r.value.timeWindow == (if "time_window" in body.fields then body.fields["time_window"] else JStr("last_7_days"))
  {
    if !Truthy(body) then Failure(EmptyRequestBody)
    else if !body.JObj? then Failure(InternalServerError)
    else Success(IntelRequest(Get(body.fields, "area", JStr("")), Get(body.fields, "time_window", JStr("last_7_days"))))
  }

  /** The answer's body. */
  datatype IntelResponse = IntelResponse(summary: Summary, trend: Trend, alerts: seq<Alert>, stats: SafetyStats)

  /** The whole handler when no AI service is configured. */
  function CrimeIntelResult(body: Json, data: seq<IncidentPoint>): Result<IntelResponse, ApiError> {
    var request :- ParseIntelRequest(body);
    var stats := AggregateStats(data);
    var ins := InsightsFor(data, stats, request.area);
    Success(IntelResponse(ins.summary, ins.trend, ins.alerts, stats))
  }

  /** `crime_intel`, without an AI service. */
  method CrimeIntelHandler(body: Json, data: seq<IncidentPoint>) returns (r: Result<IntelResponse, ApiError>)
    ensures r == CrimeIntelResult(body, data)
  {
    var request :- ParseIntelRequest(body);
    var stats := AggregateStats(data);
    var ins := BasicInsights(data, stats, request.area);
    r := Success(IntelResponse(ins.summary, ins.trend, ins.alerts, stats));
  }

  /** An empty body is refused before any statistic is computed. */
  lemma EmptyBodyRefused(data: seq<IncidentPoint>)
    ensures CrimeIntelResult(JObj(map[]), data) == Failure(EmptyRequestBody)
    ensures CrimeIntelResult(JNull, data) == Failure(EmptyRequestBody)
  {
  }

  /** An empty store: all statistics zero, no incidents, the average-rate
      trend, and only the constant alert. */
  lemma ScenarioEmptyStore()
    ensures CrimeIntelResult(JObj(map["area" := JStr("Downtown")]), [])
         == Success(IntelResponse(NoIncidents(JStr("Downtown")), AverageRate(0.0), [NoCriticalAlerts],
                                  SafetyStats(0, 0.0, 0, 0, 0, 0)))
  {
    var body := JObj(map["area" := JStr("Downtown")]);
    assert "area" in body.fields;
    assert ParseIntelRequest(body) == Success(IntelRequest(JStr("Downtown"), JStr("last_7_days")));
    var stats := AggregateStats([]);
    assert HighIncidentLocations([]) == [];
    assert RaisedAlerts(stats, 0) == [];
    assert InsightsFor([], stats, JStr("Downtown")) == Insights(NoIncidents(JStr("Downtown")), AverageRate(0.0), [NoCriticalAlerts]);
  }

  /** One poorly lit record with 12 incidents, no area given: moderate
      concerns, the lighting trend, and the poor-lighting and
      high-incident alerts in that order. */
  lemma ScenarioOnePoorPoint()
    ensures CrimeIntelResult(JObj(map["time_window" := JStr("last_30_days")]), [IncidentPoint(0.0, 0.0, 12, "poor")])
         == Success(IntelResponse(ModerateConcerns(JStr(""), 12, 1), PoorLightingTrend(1),
                                  [PoorLightingAlert(1), HighIncidentLocationsAlert(1)],
                                  SafetyStats(12, 12.0, 1, 0, 0, 1)))
  {
    var data := [IncidentPoint(0.0, 0.0, 12, "poor")];
    assert data[1..] == [];
    assert TotalIncidents(data) == 12;
    assert LightingCount(data, "poor") == 1;
    assert LightingCount(data, "moderate") == 0;
    assert LightingCount(data, "good") == 0;
    assert HighIncidentLocations(data) == [data[0]];
    var body := JObj(map["time_window" := JStr("last_30_days")]);
    assert "time_window" in body.fields && "area" !in body.fields;
    assert ParseIntelRequest(body) == Success(IntelRequest(JStr(""), JStr("last_30_days")));
    var stats := AggregateStats(data);
    assert stats == SafetyStats(12, 12.0, 1, 0, 0, 1);
    assert RaisedAlerts(stats, 1) == [PoorLightingAlert(1), HighIncidentLocationsAlert(1)];
    assert InsightsFor(data, stats, JStr("")) == Insights(ModerateConcerns(JStr(""), 12, 1), PoorLightingTrend(1),
                                                        [PoorLightingAlert(1), HighIncidentLocationsAlert(1)]);
  }
}
