# Earthquake enrichment and clustering, modelled in Dafny

This project models `load_data` from the earthquake decision-support dashboard. `load_data` turns the rows of an uploaded earthquake CSV into the table that every chart and metric of the dashboard reads. The model follows its steps in order:

1. Rows whose `time` does not parse are dropped (`TimeOrder.DropUnparsed`).
2. Each magnitude gets a `risk_level` through `pd.cut` with the right-closed bins `(0,4.0]`, `(4.0,5.5]`, `(5.5,6.5]`, `(6.5,inf]` (`Classification.RiskLevel`, over a generic model of `pd.cut`, `Classification.Cut`).
3. Each depth gets a `tectonic_type`: Crustal below 70 km, Intermediate below 300 km, Deep otherwise (`Classification.TectonicType`).
4. The rows are sorted by time (`TimeOrder.SortByTime`).
5. Each row gets `dist_km`, the haversine distance to the row before it, and `hours_since_prev`, the time since that row. On row 0 both come out missing and are filled with 0 (`Enrichment.DistKm`, `Enrichment.HoursSincePrev`).
6. A row is flagged as a cluster member (`cluster_flag`) when it is at most 24 h and at most 100 km from its predecessor. Row 0 is then forced to False (`Enrichment.FlagClusters`).
7. `cluster_id` is the running count of non-member rows (`Clustering.CumulativeNonMembers`). Non-members then lose their id (`Clustering.MaskNonMembers`).

`Enrichment.LoadData` runs the chain imperatively and writes the flag and id columns into arrays. It is proved equal to the functional specification `Enrichment.LoadDataSpec`. The properties are proved as lemmas about that specification, for any table sorted by time. Two display-side pieces are also modelled:
- the `region` label, the stripped text after the last comma of `place` (`Region.RegionOf`);
- the four recommended-action rules (`DecisionSupport.Actions`).

How the inputs are represented:
- Timestamps are whole nanoseconds since the epoch. That is the resolution of the `datetime64[ns]` column the parse produces, and `%f` may carry up to nine fractional digits.
- Time parsing is a parameter `parse: string -> Option<int>`.
- The haversine distance is a parameter `(lat1, lon1, lat2, lon2) -> real`. Where a lemma needs it non-negative, that is a precondition.

In three places the code behaves differently from what one might expect, and the model follows the code:
- **Magnitudes of 0 and below.** One might expect every magnitude up to 4.0 to be Low. The lowest bin in the code is `(0, 4.0]`, so a magnitude of 0 or below gets no `risk_level`. `RiskLevel` returns `None` for it.
- **Ties in the sort.** One might expect a stable tie-break on equal times. The code calls `sort_values` with its default algorithm, which is not stable. No lemma depends on the order of rows with equal times.
- **The Critical tile label.** It reads "Critical (M>=6.5)". Under the bins, 6.5 is High. `DecisionSupport.AlertsIffAboveCriticalBound` proves that public-safety alerts are raised exactly when some magnitude is strictly above 6.5.

## Model

| member | source | states |
|---|---|---|
| `Classification.CutFrom` | Earth_quake_dashboard/earthquake_support_dashboard.py:37-41 | a found bin index is at least the start index and its right-closed bin holds the value; None means no bin from the start index on holds it |
| `Classification.Cut` | Earth_quake_dashboard/earthquake_support_dashboard.py:37-41 | `pd.cut` gives a bin whose interval (left, right] holds the value, and gives None exactly when no bin holds it |
| `Classification.BinUnique` | Earth_quake_dashboard/earthquake_support_dashboard.py:39 | with increasing edges a value lies in at most one bin |
| `Classification.RiskLevel` | Earth_quake_dashboard/earthquake_support_dashboard.py:37-41 | a magnitude gets a risk level exactly when one of the bins [0,4.0,5.5,6.5,inf] holds it |
| `Classification.RiskLevelBins` | Earth_quake_dashboard/earthquake_support_dashboard.py:37-41 | no label iff m <= 0; Low iff 0 < m <= 4.0; Medium iff 4.0 < m <= 5.5; High iff 5.5 < m <= 6.5; Critical iff m > 6.5 |
| `Classification.RiskLevelMonotone` | Earth_quake_dashboard/earthquake_support_dashboard.py:37-41 | for positive magnitudes a larger magnitude never gets a lower risk level |
| `Classification.TectonicType` | Earth_quake_dashboard/earthquake_support_dashboard.py:43-48 | every depth gets exactly one band: Crustal iff d < 70, Intermediate iff 70 <= d < 300, Deep iff d >= 300 |
| `Classification.TectonicMonotone` | Earth_quake_dashboard/earthquake_support_dashboard.py:43-48 | a deeper event is never put in a shallower band |
| `Classification.Classify` | Earth_quake_dashboard/earthquake_support_dashboard.py:37-48 | one classified row per row, same event, with its risk level and tectonic type computed from its own magnitude and depth |
| `TimeOrder.ParseRow` | Earth_quake_dashboard/earthquake_support_dashboard.py:28 | a row parses exactly when its time does, and then keeps every other field and takes the parsed time |
| `TimeOrder.KeptIndices` | Earth_quake_dashboard/earthquake_support_dashboard.py:28-29 | the positions of the parsable rows: strictly increasing, each one parsable, every parsable row among them, as many as the input iff every row parses |
| `TimeOrder.DropUnparsed` | Earth_quake_dashboard/earthquake_support_dashboard.py:28-29 | row k of the result is the parse of the k-th parsable input row, so input order and duplicates are kept; no more rows than the input, as many exactly when every time parses, and every parsable row appears |
| `TimeOrder.KeptRows` | Earth_quake_dashboard/earthquake_support_dashboard.py:29 | rows matched one to one with the parsable positions number at most the input, all of it iff every row parses, and each comes from some parsable row |
| `TimeOrder.SortedPairwise` | Earth_quake_dashboard/earthquake_support_dashboard.py:67 | in a table whose adjacent rows are in time order, every earlier row is no later than every later row |
| `TimeOrder.InsertByTime` | Earth_quake_dashboard/earthquake_support_dashboard.py:67 | inserting into a sorted table keeps it sorted and adds exactly the one row |
| `TimeOrder.SortByTime` | Earth_quake_dashboard/earthquake_support_dashboard.py:67 | the result is sorted by time and is a permutation of the input |
| `Clustering.NonMembers` | Earth_quake_dashboard/earthquake_support_dashboard.py:80 | the number of non-member rows is at most the number of rows |
| `Clustering.RunningCountSteps` | Earth_quake_dashboard/earthquake_support_dashboard.py:80 | the running count is a cumulative sum: it starts at 1 for a non-member first row (0 for a member) and grows by one exactly at each non-member |
| `Clustering.ClusterIds` | Earth_quake_dashboard/earthquake_support_dashboard.py:80-81 | one id slot per row, with an id present exactly for member rows |
| `Clustering.CumulativeNonMembers` | Earth_quake_dashboard/earthquake_support_dashboard.py:80 | the counter loop writes a new column holding, at every row, the number of non-members up to and including it |
| `Clustering.MaskNonMembers` | Earth_quake_dashboard/earthquake_support_dashboard.py:81 | clearing non-members in place turns the running counts into exactly the reference `ClusterIds` column |
| `Clustering.ClusterIdsPositive` | Earth_quake_dashboard/earthquake_support_dashboard.py:79-81 | when row 0 is not a member, every present id is at least 1 |
| `Clustering.ClusterIdsNonDecreasing` | Earth_quake_dashboard/earthquake_support_dashboard.py:80-81 | present ids never decrease in time order |
| `Clustering.SameClusterIffUnbroken` | Earth_quake_dashboard/earthquake_support_dashboard.py:80-81 | two members share an id iff every row strictly between them is a member |
| `Clustering.SameClusterContiguous` | Earth_quake_dashboard/earthquake_support_dashboard.py:80-81 | every row between two rows with the same id is a member with that same id |
| `Clustering.BreakSeparatesClusters` | Earth_quake_dashboard/earthquake_support_dashboard.py:80-81 | a non-member between two members makes the later id strictly larger |
| `Clustering.ClusterCountBound` | Earth_quake_dashboard/earthquake_support_dashboard.py:80-81 | when row 0 is not a member, the number of distinct ids is at most the number of non-member rows |
| `Enrichment.ShiftedDistances` | Earth_quake_dashboard/earthquake_support_dashboard.py:69-71 | row 0 has no distance (NaN); every later row has the distance to the row before it |
| `Enrichment.TimeDiffHours` | Earth_quake_dashboard/earthquake_support_dashboard.py:75 | row 0 has no gap (NaN); every later row has the hours elapsed since the row before it |
| `Enrichment.FillNa` | Earth_quake_dashboard/earthquake_support_dashboard.py:73-76 | `fillna` keeps every present value and puts the fill value where one is missing |
| `Enrichment.DistKm` | Earth_quake_dashboard/earthquake_support_dashboard.py:69-73 | the dist_km column: 0 on row 0 and the distance to the previous row on every later row |
| `Enrichment.HoursSincePrev` | Earth_quake_dashboard/earthquake_support_dashboard.py:75-76 | the hours_since_prev column: 0 on row 0 and the hours since the previous row on every later row |
| `Enrichment.ClusterFlags` | Earth_quake_dashboard/earthquake_support_dashboard.py:78-79 | the cluster_flag column: False on row 0, and on every later row True iff its hour gap is at most 24 and its distance at most 100 km |
| `Enrichment.EnrichSorted` | Earth_quake_dashboard/earthquake_support_dashboard.py:67-81 | enriching keeps the rows, in order, one enriched row per row |
| `Enrichment.GapHoursWindow` | Earth_quake_dashboard/earthquake_support_dashboard.py:75-78 | an hour gap is non-negative for ordered times, and at most 24 h iff the gap is at most 86400 s |
| `Enrichment.EnrichedRow` | Earth_quake_dashboard/earthquake_support_dashboard.py:67-81 | each row of the table: its distance and hour gap to row i-1 (0 on row 0), its flag from those two, and its id from the flag column |
| `Enrichment.FirstRowDefaults` | Earth_quake_dashboard/earthquake_support_dashboard.py:69-81 | the earliest row has dist_km 0, hours_since_prev 0, no cluster flag and no cluster id |
| `Enrichment.PredecessorFields` | Earth_quake_dashboard/earthquake_support_dashboard.py:67-76 | in a sorted table row i >= 1 is measured against row i-1 only, and its hour gap is (t[i]-t[i-1]) in hours and non-negative |
| `Enrichment.DistancesNonNegative` | Earth_quake_dashboard/earthquake_support_dashboard.py:69-73 | with a non-negative distance function every dist_km is non-negative |
| `Enrichment.ClusterFlagWithinWindow` | Earth_quake_dashboard/earthquake_support_dashboard.py:75-79 | a row is flagged iff it has a predecessor at most 86400 s earlier and at most 100 km away; both bounds are inclusive |
| `Enrichment.ClusterIdsOfTable` | Earth_quake_dashboard/earthquake_support_dashboard.py:78-81 | the table's id column is the reference id column of its flags; an id is present iff the row is flagged, and it is at least 1 |
| `Enrichment.TableClusterRuns` | Earth_quake_dashboard/earthquake_support_dashboard.py:78-81 | two flagged rows of the table share a cluster_id iff every row between them is flagged |
| `Enrichment.FlagClusters` | Earth_quake_dashboard/earthquake_support_dashboard.py:78-79 | the vectorised test followed by the row-0 overwrite yields exactly the reference flag column |
| `Enrichment.SortedSurvivors` | Earth_quake_dashboard/earthquake_support_dashboard.py:28-67 | the parsed, classified, sorted rows number at most the input rows (all of them iff every time parses), are in time order, permute the classified survivors and carry their own classifications |
| `Enrichment.LoadDataSpec` | Earth_quake_dashboard/earthquake_support_dashboard.py:26-85 | the table has at most one row per input row and exactly one each iff every time parses; it is in time order, a permutation of the classified survivors, and classified row by row; its earliest row has distance 0, gap 0, no flag and no id |
| `Enrichment.LoadData` | Earth_quake_dashboard/earthquake_support_dashboard.py:26-85 | the step-by-step pipeline, with the flag and id columns written into arrays, equals the functional specification and so inherits all of its properties |
| `Enrichment.RunsOfIds` | Earth_quake_dashboard/earthquake_support_dashboard.py:80-81 | in any table whose ids are the reference ids of its own flags, two members share an id iff every row between them is a member |
| `Region.Split` | Earth_quake_dashboard/earthquake_support_dashboard.py:136 | `str.split` gives at least one piece, no piece holds the separator, and joining the pieces with it gives the input back |
| `Region.LastPieceAfterLastSeparator` | Earth_quake_dashboard/earthquake_support_dashboard.py:136 | the last piece is the separator-free suffix that follows the last separator, or the whole string |
| `Region.Strip` | Earth_quake_dashboard/earthquake_support_dashboard.py:136 | `str.strip` keeps a contiguous middle part with non-whitespace ends and removes only whitespace on either side |
| `Region.RegionOf` | Earth_quake_dashboard/earthquake_support_dashboard.py:136 | a region contains no comma and has no surrounding whitespace |
| `Region.RegionAfterLastComma` | Earth_quake_dashboard/earthquake_support_dashboard.py:136 | the region is the stripped text after the last comma of the place |
| `Region.RegionWithoutComma` | Earth_quake_dashboard/earthquake_support_dashboard.py:136 | a place without a comma gives itself, stripped |
| `DecisionSupport.Count` | Earth_quake_dashboard/earthquake_support_dashboard.py:147-148 | `len(df[mask])` is exactly the number of row positions that satisfy the mask, at most the table size, and positive iff some row qualifies |
| `DecisionSupport.MaxTime` | Earth_quake_dashboard/earthquake_support_dashboard.py:148 | the latest time is at least every row's time and is some row's time |
| `DecisionSupport.Recent24h` | Earth_quake_dashboard/earthquake_support_dashboard.py:148 | recent_24h is exactly the number of rows at most 24 h before the latest row: 0 on an empty table and at least 1 otherwise |
| `DecisionSupport.CriticalEvents` | Earth_quake_dashboard/earthquake_support_dashboard.py:147 | critical_events is exactly the number of Critical rows, and positive iff some row is Critical |
| `DecisionSupport.ClusterEvents` | Earth_quake_dashboard/earthquake_support_dashboard.py:291 | len(clusters) is exactly the number of rows flagged as cluster members |
| `DecisionSupport.StrongEvents` | Earth_quake_dashboard/earthquake_support_dashboard.py:348 | the tsunami count is exactly the number of rows with magnitude at least 5.5 |
| `DecisionSupport.Actions` | Earth_quake_dashboard/earthquake_support_dashboard.py:344-349 | each action is recommended iff its threshold is passed (>10 recent, >0 critical, >5 members, >3 with M>=5.5); none iff no threshold passes; nothing but these four strings ever appears; the actions come in the fixed order without repeats |
| `DecisionSupport.RecommendedActions` | Earth_quake_dashboard/earthquake_support_dashboard.py:344-349 | read off the rows of a table: monitoring iff more than 10 rows lie within 24 h of the latest, alerts iff some row is Critical, teams iff more than 5 rows are members, tsunami warning iff more than 3 rows have M >= 5.5; no other string appears, and the actions come in the fixed order without repeats |
| `DecisionSupport.AlertsIffAboveCriticalBound` | Earth_quake_dashboard/earthquake_support_dashboard.py:346 | on correctly classified rows, public-safety alerts are recommended iff some magnitude is strictly above 6.5 |

## Left out

- Reading the CSV (`pd.read_csv`) and everything Streamlit and Plotly do: the page, widgets, tiles, charts, maps and download. These are I/O and presentation.
- The exact formats `pd.to_datetime` accepts. The library's parsing is a parameter `parse` that returns the timestamp or nothing.
- The calendar columns `date`, `year`, `month`, `hour` and `day_of_the_week`. They come from library calendar calls and nothing in the modelled core reads them.
- The haversine body. Its floating-point trigonometry (`sin`, `cos`, `arcsin`, `sqrt`) is a parameter of the model. No numeric fact about it is proved, so the model does not show that identical coordinates give distance 0.
- Floating-point arithmetic. Magnitudes, depths, coordinates, distances and hour gaps are exact reals, and the hour gap is an exact quotient.
- NaN in the numeric columns:
  - a NaN depth falls through to Deep in the code;
  - a NaN coordinate is zeroed by `fillna(0)` on `dist_km`;
  - a NaN magnitude gets no risk level.
  The inputs here are reals, so none of these cases arises. Only row 0's missing predecessor is modelled, as `None` followed by `FillNa`.
- The overwrite `df.loc[0, 'cluster_flag'] = False` on an empty table. There it would add a row. The model leaves an empty table empty.
- The order of rows with equal times. The library's unstable sort is modelled by one insertion sort. Every lemma about the enriched table holds for any sorted permutation. Only `LoadData`'s equation with `LoadDataSpec` depends on the insertion sort.
- The 64-bit nanosecond range of pandas timestamps. Timestamps are unbounded integers.
- The `cluster_id` column's float dtype. An id is a natural number or absent.
- Display-layer reductions:
  - the cluster summary aggregation;
  - the 10-bin depth `pd.cut`;
  - the region counts and their ranking;
  - the alerts measured against the wall clock (`datetime.now()`);
  - the time-window, magnitude, depth and category filters.
  The action rules are stated for any table they are given, filtered or not.
- A missing (NaN) `place`, for which the region would be NaN. Places are strings.
