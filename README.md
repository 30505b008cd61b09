# Midna backend: route risk scoring and crime statistics

This project models the two request handlers of the Midna backend and the logic behind them, with proofs.

- **The incident store.** At start-up the backend reads a list of raw safety points. Each entry is normalised to an `IncidentPoint` made of latitude, longitude, incident count and lighting label. The coordinates can come as a `coordinates: [lng, lat]` pair or as separate `lat`/`lng` fields. A missing count defaults to 0 and a missing label to "good". Labels are lower-cased and trimmed.
- **`analyze-route`.** The handler validates the body, then splits each route into consecutive pairs of coordinates. It scores each pair against the store:
  - it collects, without duplicates, every point strictly within 0.01 of either end;
  - it classifies that list as safe, moderate or poor from the incident total and the number of poorly lit points.
  
  Each pair becomes one GeoJSON `LineString` feature that carries its risk level, and the route id when the route has a truthy one.
- **`crime-intel`.** The handler aggregates statistics over the whole store. With no AI service configured, it derives a summary, a trend and an ordered list of alerts from those statistics.
- **Fence unwrapping.** The unwrapping of a fenced AI answer is modelled apart.

Modules, one file each:

| file | module | models |
|---|---|---|
| wrappers.dfy | `Wrappers` | `Option` and `Result` |
| json.dfy | `Json` | decoded JSON values and the Python operations the handlers apply to them: truthiness, `in`, indexing, `len` and `dict.get`. Each fails exactly where Python raises. |
| text.dfy | `Text` | `str.strip` with Python's whitespace set, lower-casing, substring search and the pieces of `str.split` |
| safety_data.dfy | `SafetyData` | point normalisation, the load loop, and the incident-total and lighting-count reductions |
| risk_scorer.dfy | `RiskScorer` | `find_nearby_incidents`, `calculate_risk_level` and `evaluate_segment` |
| route_analysis.dfy | `RouteAnalysis` | the `analyze-route` handler |
| crime_intel.dfy | `CrimeIntel` | `aggregate_safety_stats`, `generate_basic_insights`, the fence unwrapping and the `crime-intel` handler |

Loops and sequences of conditional appends in the source are methods here, each proved equal to a specification function; the properties are proved about those functions:
- `LoadSafetyData`
- `FindNearbyIncidents`
- `EmitRouteFeatures`, `EmitSegmentFeature` and `AnalyzeRoute`
- `BasicInsights` and `CrimeIntelHandler`

The rest is pure functions and lemmas. Distances are compared over the reals: `sqrt(d) < t` is stated as `t > 0 && d < t * t`, and lemma `NearMatchesSqrt` justifies the rewrite for any square root of `d`.

A load that fails mid-way keeps the points appended before the failing entry. The exception only ends the loop, and `safety_data` is returned as it stands (backend/app.py:20, 28-52). `LoadPoints` and `LoadSafetyData` model that.

## Model

| member | source | states |
|---|---|---|
| SafetyData.NormalizePoint | backend/app.py:29-40 | A `coordinates` list takes precedence. It needs at least two numbers, read as lng then lat. Otherwise both `lat` and `lng` are required. Failing entries are reported. The count defaults to 0 and the label to the normalised "good". |
| SafetyData.NormalizeLighting | backend/app.py:39 | The stored label: lower-cased, then stripped. Its properties are proved in `NormalizedLightingIsCanonical`. |
| SafetyData.ShapesAgree | backend/app.py:29-33 | `{coordinates: [x, y]}` gives the same record as `{lat: y, lng: x}`. |
| SafetyData.NormalizedLightingIsCanonical | backend/app.py:39 | A stored label is trimmed and has no upper-case letter. Normalising it again changes nothing. |
| SafetyData.DefaultLightingIsGood | backend/app.py:39 | An entry without a label is stored as exactly "good". |
| SafetyData.LoadWith | backend/app.py:27-40 | The loader's records for a given normaliser: each entry in turn, up to the first that fails. Proved a prefix in `LoadWithIsPrefix`. |
| SafetyData.LoadPoints | backend/app.py:27-40 | The loader with the entry normalisation of the source. Proved a prefix in `LoadPointsIsPrefix`. |
| SafetyData.LoadPointsIsPrefix | backend/app.py:27-40 | The loaded list is the normalisation, entry by entry, of a prefix of the entries. It stops short only at an entry that fails to normalise. |
| SafetyData.LoadWithIsPrefix | backend/app.py:27-40 | For any normaliser, the front-to-back load is the normalisation of a prefix of the entries. It stops short only at an entry that fails. |
| SafetyData.LoadSafetyData | backend/app.py:18-52 | No document gives the empty store. Otherwise the loop's result is the prefix the loader keeps. |
| SafetyData.LightingCount | backend/crime_intel.py:56-58 | A label count never exceeds the number of records. |
| SafetyData.TotalIncidents | backend/app.py:80 | The sum of the records' incident counts, as crime_intel.py:54 also computes it. Proved additive in `TotalIncidentsAppend` and order-blind in `ReductionsIgnoreOrder`. |
| SafetyData.TotalIncidentsAppend | backend/app.py:80 | The incident total of a concatenation is the sum of the totals. |
| SafetyData.LightingCountAppend | backend/crime_intel.py:56-58 | A label count of a concatenation is the sum of the counts. |
| SafetyData.ReductionsIgnoreOrder | backend/crime_intel.py:54-58 | The total and the label counts depend only on the multiset of records. |
| SafetyData.LightingCountsBounded | backend/crime_intel.py:56-58 | The counts of three distinct labels sum to at most the number of records. |
| SafetyData.LightingCountPositive | backend/crime_intel.py:56-58 | A label's count is positive exactly when some record carries that label. |
| Json.Get | backend/app.py:122-123 | `dict.get` returns the stored value, or the default when the key is absent. |
| Json.Truthy | backend/app.py:108 | Python's truth value: null, false, 0, and the empty string, list and object are falsy. It is also used at app.py:113, 125 and 143, and crime_intel.py:16. |
| Json.HasKey | backend/app.py:111 | `in` is a key test on an object, an element test on a list and a substring test on a string. It raises on anything else. |
| Json.Lookup | backend/app.py:112 | `v[key]` succeeds exactly on an object holding the key. |
| Json.Len | backend/app.py:125 | `len` is defined on lists, strings and objects only. |
| Json.Item | backend/app.py:129 | `v[i]` succeeds exactly on a list or string long enough. |
| Json.Number | backend/app.py:67-69 | Numbers and booleans are the values a float can be subtracted from. |
| Text.Strip | backend/app.py:39 | The result is trimmed. |
| Text.StripIsSlice | backend/app.py:39 | `strip` removes only whitespace, from both ends. |
| Text.StripTrimmed | backend/app.py:39 | Stripping a trimmed string changes nothing. |
| Text.Lower | backend/app.py:39 | Lower-casing keeps the length and maps each character. |
| Text.LowerProperties | backend/app.py:39 | The result has no upper-case letter, and a string without one is unchanged. |
| Text.IndexOf | backend/crime_intel.py:107-110 | Gives the first occurrence of the pattern, or none exactly when the pattern does not occur. |
| Text.SplitFirst | backend/crime_intel.py:108 | `split(sep)[0]` is the prefix before the first `sep`. It holds no `sep`, and it is the whole string when `sep` does not occur. |
| Text.After | backend/crime_intel.py:108 | What follows the first occurrence of `sep`: no earlier position holds `sep`. |
| Text.SliceKeepsAbsence | backend/crime_intel.py:108-110 | A pattern absent from a string is absent from each of its slices. |
| Text.Contains | backend/crime_intel.py:107-109 | `pat in s`: the pattern occurs at some position. `IndexOf` finds the first such position exactly when it holds. |
| RiskScorer.SquaredDistance | backend/app.py:58-60 | The squared distance is non-negative. |
| RiskScorer.NearMatchesSqrt | backend/app.py:58-60 | `sqrt(d) < t` iff `t > 0` and `d < t * t`. |
| RiskScorer.Near | backend/app.py:58-60 | The distance test of app.py:70, written with squares. `NearMatchesSqrt` justifies it. |
| RiskScorer.AddIfNear | backend/app.py:70-71 | One inner-loop step: append the point if it is near and not yet collected. |
| RiskScorer.ScanPoints | backend/app.py:68-71 | The inner loop over the store for one coordinate. Characterised in `ScanPointsProperties`. |
| RiskScorer.Nearby | backend/app.py:63-72 | Both loops of `find_nearby_incidents`, coordinates outside. Characterised in `NearbyCharacterized`. |
| RiskScorer.ScanPointsProperties | backend/app.py:68-71 | The inner loop adds exactly the near points not yet collected, and keeps the list free of duplicates. |
| RiskScorer.NearbyCharacterized | backend/app.py:63-72 | The result has no duplicates. A point is in it iff it is in the store and within the threshold of some coordinate. |
| RiskScorer.FindNearbyIncidents | backend/app.py:63-72 | The nested loops compute `Nearby`, in discovery order. |
| RiskScorer.CalculateRiskLevel | backend/app.py:75-88 | No nearby points gives safe. Poor iff total ≥ 10 or at least two poorly lit points. Moderate iff not poor and total ≥ 5 or one poorly lit point. |
| RiskScorer.Classify | backend/app.py:83-88 | The level from the total and the poorly lit count. It is monotone by `ClassifyMonotone`. |
| RiskScorer.EvaluateSegment | backend/app.py:91-94 | The risk level of the points near the segment. It is order-blind and symmetric by `EvaluateSegmentOrderIndependent` and `EvaluateSegmentSymmetric`. |
| RiskScorer.ClassifyMonotone | backend/app.py:83-88 | A larger total or poor-lighting count never lowers the level. |
| RiskScorer.RiskMonotoneInNearby | backend/app.py:77-88 | Adding points with non-negative counts never lowers the level. |
| RiskScorer.TotalIncidentsNonNegative | backend/app.py:80 | Non-negative counts give a non-negative total. |
| RiskScorer.EvaluateSegmentOrderIndependent | backend/app.py:91-94 | Two coordinate lists with the same elements score the same. |
| RiskScorer.EvaluateSegmentSymmetric | backend/app.py:91-94 | Swapping a segment's endpoints keeps its level. |
| RiskScorer.NearbySameElements | backend/app.py:66-71 | Coordinate lists with the same elements collect the same points. |
| RiskScorer.EmptyStoreIsSafe | backend/app.py:63-78 | Against an empty store nothing is near and every segment is safe. |
| RiskScorer.NearbyOfPair | backend/app.py:63-72 | Against a one-point store, a segment collects that point iff either end is near it. |
| RiskScorer.ScenarioSegments | backend/app.py:91-94 | A segment over a poorly lit 12-incident point is poor. A far segment is safe. |
| RouteAnalysis.ValidateRouteRequest | backend/app.py:107-118 | A falsy body gives the empty-body error. `routes` takes precedence over `coordinates`, and an empty or non-list `routes` is invalid. A bare `coordinates` value becomes a single route. Neither key gives the missing-field error. A truthy string or list body mentioning neither key gives the missing-field error; one mentioning either key, and a number or boolean body, give the 500 error. A returned route list is non-empty. |
| RouteAnalysis.ScenarioNonObjectBodies | backend/app.py:108-118 | `"abc"` and `[1]` give the missing-field error. `"routes"`, `["coordinates"]`, `5` and `true` give the 500 error. |
| RouteAnalysis.Components | backend/app.py:67 | `coord[0], coord[1]` succeeds iff both indexings do. |
| RouteAnalysis.ToPosition | backend/app.py:67-69 | A coordinate is a position iff both components are numbers. |
| RouteAnalysis.ToPositions | backend/app.py:66-69 | A list of coordinates converts iff each coordinate does, position by position. |
| RouteAnalysis.SegmentRisk | backend/app.py:129-130 | Scoring succeeds iff every coordinate can be scored. Against an empty store the segment is safe. Otherwise the level is `evaluate_segment` of its positions. |
| RouteAnalysis.SegmentFeature | backend/app.py:129-146 | Segment i's feature or its error. Its shape is proved in `SegmentFeatureShape`. |
| RouteAnalysis.SegmentFeatureShape | backend/app.py:128-144 | Segment k holds `[c_k, c_k+1]` with that segment's risk. It carries the route id iff the id is truthy. |
| RouteAnalysis.CollectAt | backend/app.py:128-146 | Running k steps in order succeeds iff each step does. The collected list then has length k and holds step i's value at i. |
| RouteAnalysis.CollectFailurePropagates | backend/app.py:155-157 | Once a step fails, running more steps keeps that first failure. |
| RouteAnalysis.CollectStep | backend/app.py:128-146 | One more step appends its value, or turns the result into its error. |
| RouteAnalysis.SegmentFeaturesAt | backend/app.py:128-146 | The first k segments succeed iff each does. The i-th feature is then segment i's. |
| RouteAnalysis.SegmentFeaturesStep | backend/app.py:129-146 | Segment k's feature extends the first k features, or its error becomes the route's. |
| RouteAnalysis.RouteFeaturesShape | backend/app.py:121-146 | A route with fewer than two coordinates contributes nothing. A route with n ≥ 2 gives exactly n − 1 features in order, the i-th over `[c_i, c_i+1]`, and `route_id` is present iff it is truthy. |
| RouteAnalysis.RouteFeaturesOfList | backend/app.py:122-128 | A route whose coordinates is a list contributes its segments' features. |
| RouteAnalysis.RouteFeatures | backend/app.py:122-146 | A route's features: nothing for fewer than two coordinates, else its segments in order. Characterised in `RouteFeaturesShape`. |
| RouteAnalysis.RoutesFeatures | backend/app.py:120-146 | All routes' features, joined in order, or the first error. Proved in `RoutesFeaturesSucceed` and `RoutesFeaturesAppend`. |
| RouteAnalysis.AnalyzeRouteResult | backend/app.py:104-157 | The handler's answer: the validation error, or the features of all the routes. The loop in `AnalyzeRoute` computes it. |
| RouteAnalysis.SegmentsSucceed | backend/app.py:128-130 | All segments succeed iff every coordinate can be scored. |
| RouteAnalysis.SegmentValues | backend/app.py:128-146 | The emitted features are the segments' features, in order. |
| RouteAnalysis.RoutesFeaturesSucceed | backend/app.py:120-146 | The answer succeeds iff every route's features do. |
| RouteAnalysis.RoutesFeaturesAppend | backend/app.py:121-146 | Each route's features follow those of the routes before it. |
| RouteAnalysis.SegmentFailurePropagates | backend/app.py:155-157 | A failing segment makes the route fail with the same error. |
| RouteAnalysis.RoutesFailurePropagates | backend/app.py:155-157 | A failing route makes the whole answer fail with the same error. |
| RouteAnalysis.ToPositionsPair | backend/app.py:129 | A pair of convertible coordinates converts to its pair of positions. |
| RouteAnalysis.EmitSegmentFeature | backend/app.py:129-146 | The body of the inner loop computes segment i's feature, or the 500 error. |
| RouteAnalysis.EmitRouteFeatures | backend/app.py:121-146 | The inner loop computes the route's features. |
| RouteAnalysis.AnalyzeRoute | backend/app.py:104-157 | The handler computes the validation error or the features of all routes. |
| RouteAnalysis.ScenarioSingleRoute | backend/app.py:115-146 | A bare two-coordinate body over a poorly lit 12-incident point gives one poor feature without a route id. |
| RouteAnalysis.ScenarioBody | backend/app.py:107-118 | A body with only `coordinates` is accepted as one route. |
| RouteAnalysis.ScenarioSegment | backend/app.py:129-144 | In that scenario, segment 0 is a poor feature without a route id. |
| RouteAnalysis.ScenarioRoute | backend/app.py:121-146 | In that scenario, the route yields exactly that one feature. |
| CrimeIntel.AggregateStats | backend/crime_intel.py:42-68 | An empty store gives all-zero stats. The total is the incident sum and the location count the list length. The three label counts count exact matches and sum to at most the location count. The average times the location count is the total. |
| CrimeIntel.StatsIgnoreOrder | backend/crime_intel.py:54-59 | The stats depend only on the multiset of records. |
| CrimeIntel.SummaryFor | backend/crime_intel.py:121-128 | Exactly one of four summaries, chosen by the total: `== 0`, `< 10`, `< 30`, otherwise. Each carries the area and its interpolated values. |
| CrimeIntel.SummaryMonotone | backend/crime_intel.py:121-128 | Over non-negative totals, a larger total never gives a milder summary. |
| CrimeIntel.TrendFor | backend/crime_intel.py:130-135 | The lighting trend iff poor > good. The above-average trend iff not and the average exceeds 5. Otherwise the average trend. |
| CrimeIntel.TrendIgnoresAverageWhenPoorLit | backend/crime_intel.py:130-131 | While poor > good, the average plays no part. |
| CrimeIntel.HighIncidentLocations | backend/crime_intel.py:143 | Keeps exactly the records with at least 5 incidents. Their multiplicity is proved in `HighIncidentMultiplicity`. |
| CrimeIntel.HighIncidentMultiplicity | backend/crime_intel.py:143-145 | Each record with five or more incidents is kept as often as the store holds it, and no other record is kept. This fixes the count the high-incident alert reports. |
| CrimeIntel.HighIncidentLocationsAppend | backend/crime_intel.py:143 | The filter distributes over concatenation. |
| CrimeIntel.HighIncidentRemoveAt | backend/crime_intel.py:143 | Taking one record out of the store takes its share out of the high-incident locations. |
| CrimeIntel.HighIncidentCountIgnoresOrder | backend/crime_intel.py:143-145 | The number of high-incident locations depends only on the multiset of records. |
| CrimeIntel.ConcatInCheckOrder | backend/crime_intel.py:137-147 | Joining two ordered alert lists whose ranks do not overlap keeps the order. |
| CrimeIntel.PiecesInCheckOrder | backend/crime_intel.py:137-147 | The four conditional appends produce alerts in check order. |
| CrimeIntel.RaisedAlerts | backend/crime_intel.py:137-147 | The four conditional alerts, in check order. Characterised in `RaisedAlertsOrdered` and `RaisedAlertsMembership`. |
| CrimeIntel.AlertsFor | backend/crime_intel.py:137-149 | The raised alerts, or the constant alert when none is raised. Characterised in `AlertsForProperties`. |
| CrimeIntel.RaisedAlertsOrdered | backend/crime_intel.py:137-149 | At most four alerts are raised, in check order. None is raised exactly when no condition holds. |
| CrimeIntel.RaisedAlertsMembership | backend/crime_intel.py:137-147 | Each alert is raised iff its condition holds, and carries its count. |
| CrimeIntel.AlertsForProperties | backend/crime_intel.py:137-149 | Alerts are never empty and number at most four. They are exactly the constant alert iff none of the four conditions holds. They keep the order poor lighting, high total, high-incident locations, moderate lighting. Each is present iff its condition holds and carries its count. |
| CrimeIntel.AlertsCarryStats | backend/crime_intel.py:138-147 | Each alert reports the figure of the statistics it was raised on. |
| CrimeIntel.OneAlertOfEachKind | backend/crime_intel.py:137-149 | An alert kind is present iff the alert with the statistic's count is. |
| CrimeIntel.HighIncidentsPresent | backend/crime_intel.py:143-145 | A high-incident location exists iff some record has at least 5 incidents. |
| CrimeIntel.AlertKindsFromStore | backend/crime_intel.py:137-147 | Read against the store, the poor-lighting, moderate-lighting and high-incident alerts are each raised iff some record calls for it. |
| CrimeIntel.NoCriticalFromStore | backend/crime_intel.py:137-149 | The constant alert is given iff the total is at most 20 and no record is poorly or moderately lit or has 5 or more incidents. |
| CrimeIntel.AlertCountsFromStore | backend/crime_intel.py:138-147 | Each alert reports the store's own figure: the poorly and moderately lit counts, the incident total, and the number of high-incident records. |
| CrimeIntel.InsightsFor | backend/crime_intel.py:119-155 | The summary, trend and alerts built from the statistics. `BasicInsights` computes it. |
| CrimeIntel.BasicInsights | backend/crime_intel.py:119-155 | The appends compute the summary, the trend and the alert list. |
| CrimeIntel.InsightsIgnoreOrder | backend/crime_intel.py:119-155 | The insights depend only on the multiset of records. |
| CrimeIntel.FencePayload | backend/crime_intel.py:105-110 | The payload is trimmed. |
| CrimeIntel.StripKeepsAbsence | backend/crime_intel.py:108-110 | Stripping a string without a fence leaves none. |
| CrimeIntel.JsonFenceHasFence | backend/crime_intel.py:107-109 | A text with a ```json fence has a plain fence. |
| CrimeIntel.PayloadHasNoFence | backend/crime_intel.py:107-110 | The payload never holds a fence. |
| CrimeIntel.FenceFreeIsOwnPayload | backend/crime_intel.py:105-110 | A trimmed fence-free text is its own payload. |
| CrimeIntel.FencePayloadProperties | backend/crime_intel.py:105-110 | A text without a fence is only stripped. The payload holds no fence. Unwrapping twice equals unwrapping once. |
| CrimeIntel.JsonFencePayload | backend/crime_intel.py:107-108 | With a ```json fence, the payload is the stripped text between it and the next ```. The exception is when that ``` overlaps a second ```json. |
| CrimeIntel.SplitAtJsonFence | backend/crime_intel.py:108 | Lemma step: cutting the text at its first ```json and then at the first ``` gives the same prefix as cutting at its first ``` directly. The exception is when that first ``` straddles the start of the ```json. |
| CrimeIntel.SplitBeforeCut | backend/crime_intel.py:108 | Lemma step: a ``` that ends before the cut is also the first ``` of the cut prefix. |
| CrimeIntel.JsonFenceRunIntoSecondFence | backend/crime_intel.py:108 | That exception: on "```jsonA````json" the payload is "A`". |
| CrimeIntel.StrayBacktickText | backend/crime_intel.py:105-107 | Lemma step: for that text, stripping changes nothing and the fence is at 0. |
| CrimeIntel.StrayBacktickOpening | backend/crime_intel.py:107-108 | Lemma step: the first ```json of that text is at 0. |
| CrimeIntel.StrayBacktickAfter | backend/crime_intel.py:108 | Lemma step: what follows the opening ```json is "A````json". |
| CrimeIntel.StrayBacktickSplit | backend/crime_intel.py:108 | Lemma step: in it, the text before the next ```json is "A`". |
| CrimeIntel.StrayBacktickRest | backend/crime_intel.py:108 | Lemma step: in what follows, the next ```json is at 2. |
| CrimeIntel.StrayBacktickPiece | backend/crime_intel.py:108 | Lemma step: the piece "A`" holds no fence and is trimmed. |
| CrimeIntel.PlainFencePayload | backend/crime_intel.py:109-110 | With only plain fences, the payload is the stripped text between the first two. |
| CrimeIntel.ParseIntelRequest | backend/crime_intel.py:14-20 | A falsy body gives the empty-body error. Any other non-object fails with the 500 error. `area` defaults to "" and `time_window` to "last_7_days". |
| CrimeIntel.CrimeIntelResult | backend/crime_intel.py:10-40 | The answer without an AI service: the request error, or the insights and the stats. `CrimeIntelHandler` computes it. |
| CrimeIntel.CrimeIntelHandler | backend/crime_intel.py:10-40 | The handler computes the request error, or the summary, trend, alerts and stats. |
| CrimeIntel.EmptyBodyRefused | backend/crime_intel.py:14-17 | An empty body is refused whatever the store holds. |
| CrimeIntel.ScenarioEmptyStore | backend/crime_intel.py:44-52 | An empty store gives zero stats, the no-incident summary, the average trend and only the constant alert. |
| CrimeIntel.ScenarioOnePoorPoint | backend/crime_intel.py:119-155 | One poorly lit 12-incident record gives moderate concerns, the lighting trend, and the poor-lighting and high-incident alerts in that order. |

## Left out

- Flask plumbing is not modelled: routing, `request.get_json`, `jsonify`, status codes, CORS and `app.run`. The handlers' answers are `Result` values whose errors name the answer's error body.
- The health-check endpoint is not modelled. It has no logic.
- File reading and JSON decoding in the loader are not modelled. `LoadSafetyData` receives the decoded `safety_points` entries, or none when the file is missing, is invalid or lacks the key.
- The JSON decode error branch of `analyze_route` is not modelled. It belongs to body parsing, which is outside the model.
- SafetyData.NormalizePoint does not model the `float()` and `int()` coercions. An entry's fields arrive already typed, so a coercion that raises is not represented.
- RiskScorer.Near compares squared distances over exact reals. Floating-point rounding of `math.sqrt` and of the subtractions is not modelled.
- RouteAnalysis.SegmentRisk does not model the 500 answer that float overflow gives against a non-empty store. A coordinate such as 1e200 makes `(lat1 - lat2)**2` raise OverflowError (backend/app.py:60), and an integer coordinate beyond float range raises at the subtraction. With real numbers the model scores such a coordinate, so its "succeeds iff every coordinate is scorable" holds only for coordinates within float range. The `NaN` and `Infinity` literals that Python's JSON decoder accepts cannot be expressed in `Json.JNum`, so they are not modelled either.
- Text.Lower lower-cases ASCII letters only. Python's Unicode case mapping for other scripts is not modelled.
- CrimeIntel.AggregateStats gives the average as the exact quotient. `round(avg, 2)` is not modelled, so `TrendFor` compares the exact average with 5. The two can differ only when the average lies within 0.005 of 5.
- CrimeIntel.CrimeIntelHandler models the handler when no AI service is configured. The Gemini call, the prompt text, the environment key and `json.loads` of the reply are foreign calls and are not modelled. Only the fence unwrapping of the reply (`FencePayload`) is.
- Summary, trend and alert texts are represented by tags that carry the values they interpolate. The surrounding wording is not modelled.
- The `print` diagnostics are not modelled.
- The UI files are not modelled. They hold styling, a map view and navigation, with no logic.
