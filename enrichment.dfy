/** `load_data`: from raw rows to the enriched, time-ordered, clustered
    table. The columns that depend on the row before (`dist_km`,
    `hours_since_prev`) and the cluster columns are defined here for any
    table already sorted by time; `LoadData` runs the whole chain. */
module Enrichment {
  import opened QuakeTypes
  import opened Classification
  import opened TimeOrder
  import opened Clustering

  /** A row within this many hours of its predecessor may be a member. */
  const ClusterWindowHours: real := 24.0
  /** A row within this many km of its predecessor may be a member. */
  const ClusterRadiusKm: real := 100.0
  /** The 24-hour window in nanoseconds. */
  const ClusterWindowNanos: int := 86_400_000_000_000

  /** The nested `haversine(lat1, lon1, lat2, lon2)` in km. Its floating-point
      trigonometry is not modelled: any function may stand for it. */
  type Distance = (real, real, real, real) -> real

  ghost predicate NonNegative(haversine: Distance) {
    forall lat1, lon1, lat2, lon2 :: haversine(lat1, lon1, lat2, lon2) >= 0.0
  }

  /** The distance from row i to row i-1. */
  function PrevDistance(s: seq<Classified>, haversine: Distance, i: nat): real
    requires 1 <= i < |s|
  {
    haversine(s[i].event.latitude, s[i].event.longitude, s[i - 1].event.latitude, s[i - 1].event.longitude)
  }

  /** `haversine(lat, lon, lat.shift(), lon.shift())`: row i against row i-1;
      row 0 has no predecessor and gets NaN, here None. */
  function ShiftedDistances(s: seq<Classified>, haversine: Distance): (r: seq<Option<real>>)
    ensures |r| == |s|
    ensures |s| > 0 ==> r[0] == None
    ensures forall i :: 1 <= i < |s| ==> r[i] == Some(PrevDistance(s, haversine, i))
  {
    seq(|s|, i requires 0 <= i < |s| =>
      if i == 0 then None
      else Some(PrevDistance(s, haversine, i)))
  }

  /** The time from `t0` to `t1` in hours. */
  function GapHours(t0: int, t1: int): real {
    (t1 - t0) as real / 3_600_000_000_000.0
  }

  /** The hour gap is non-negative when the times are in order, and at most
      24 exactly when the nanosecond gap is at most 86400 s. */
  lemma GapHoursWindow(t0: int, t1: int)
    ensures t0 <= t1 ==> GapHours(t0, t1) >= 0.0
    ensures GapHours(t0, t1) <= ClusterWindowHours <==> t1 - t0 <= ClusterWindowNanos
  {
  }

  /** The hours from row i-1 to row i, the one name for that gap in every
      contract below; a call to it, rather than `GapHours` spelled out, also
      keeps the column comprehensions cheap for the verifier. */
  function PrevGap(s: seq<Classified>, i: nat): real
    requires 1 <= i < |s|
  {
    GapHours(s[i - 1].event.time, s[i].event.time)
  }

  /** `time.diff().dt.total_seconds() / 3600`: NaN (None) on row 0. */
  function TimeDiffHours(s: seq<Classified>): (r: seq<Option<real>>)
    ensures |r| == |s|
    ensures |s| > 0 ==> r[0] == None
    ensures forall i :: 1 <= i < |s| ==> r[i] == Some(PrevGap(s, i))
  {
    seq(|s|, i requires 0 <= i < |s| =>
      if i == 0 then None
      else Some(PrevGap(s, i)))
  }

  /** `fillna(value)`. */
  function FillNa(column: seq<Option<real>>, value: real): (r: seq<real>)
    ensures |r| == |column|
    ensures forall i :: 0 <= i < |column| ==> r[i] == if column[i].Some? then column[i].value else value
  {
    seq(|column|, i requires 0 <= i < |column| =>
      match column[i]
      case None => value
      case Some(v) => v)
  }

  /** The `dist_km` column: 0 on the first row, which has no predecessor,
      and on every later row the distance to the row before it. */
  function DistKm(s: seq<Classified>, haversine: Distance): (r: seq<real>)
    ensures |r| == |s|
    ensures |s| > 0 ==> r[0] == 0.0
    ensures forall i :: 1 <= i < |s| ==> r[i] == PrevDistance(s, haversine, i)
  {
    FillNa(ShiftedDistances(s, haversine), 0.0)
  }

  /** The `hours_since_prev` column: 0 on the first row, and on every later
      row the hours elapsed since the row before it. */
  function HoursSincePrev(s: seq<Classified>): (r: seq<real>)
    ensures |r| == |s|
    ensures |s| > 0 ==> r[0] == 0.0
    ensures forall i :: 1 <= i < |s| ==> r[i] == PrevGap(s, i)
  {
    FillNa(TimeDiffHours(s), 0.0)
  }

  /** The `cluster_flag` column: `(hours_since_prev <= 24) & (dist_km <= 100)`
      with row 0 then overwritten by False. */
  function ClusterFlags(hours: seq<real>, dist: seq<real>): (flags: seq<bool>)
    requires |hours| == |dist|
    ensures |flags| == |hours|
    ensures |hours| > 0 ==> !flags[0]
    ensures forall i :: 1 <= i < |hours| ==>
      (flags[i] <==> hours[i] <= ClusterWindowHours && dist[i] <= ClusterRadiusKm)
  {
    seq(|hours|, i requires 0 <= i < |hours| =>
      i != 0 && hours[i] <= ClusterWindowHours && dist[i] <= ClusterRadiusKm)
  }

  /** The rows with their four added columns side by side. */
  function Assemble(s: seq<Classified>, dist: seq<real>, hours: seq<real>, flags: seq<bool>, ids: seq<Option<nat>>)
    : (df: seq<Enriched>)
    requires |dist| == |hours| == |flags| == |ids| == |s|
    ensures |df| == |s|
    ensures forall i :: 0 <= i < |s| ==> df[i].row == s[i]
  {
    seq(|s|, i requires 0 <= i < |s| => Enriched(s[i], dist[i], hours[i], flags[i], ids[i]))
  }

  /** The table `load_data` builds from rows already sorted by time. */
  function EnrichSorted(s: seq<Classified>, haversine: Distance): (df: seq<Enriched>)
    ensures |df| == |s|
    ensures forall i :: 0 <= i < |s| ==> df[i].row == s[i]
    ensures Rows(df) == s
  {
    var dist := DistKm(s, haversine);
    var hours := HoursSincePrev(s);
    var flags := ClusterFlags(hours, dist);
    var df := Assemble(s, dist, hours, flags, ClusterIds(flags));
    assert Rows(df) == s;
    df
  }

  /** The whole of `load_data` after the CSV has been read: at most one row
      per input row (exactly one each when every time parses), in time
      order, a permutation of the classified survivors, each classified by
      its own magnitude and depth, and the earliest row with the defaults of
      a row without predecessor. */
  function LoadDataSpec(rows: seq<RawEvent>, parse: string -> Option<int>, haversine: Distance)
    : (df: seq<Enriched>)
    ensures |df| <= |rows|
    ensures |df| == |rows| <==> forall i :: 0 <= i < |rows| ==> ParseRow(rows[i], parse).Some?
    ensures SortedByTime(Rows(df))
    ensures multiset(Rows(df)) == multiset(Classify(DropUnparsed(rows, parse)))
    ensures forall i :: 0 <= i < |df| ==> WellClassified(df[i].row)
    ensures |df| > 0 ==>
      df[0].distKm == 0.0 && df[0].hoursSincePrev == 0.0 && !df[0].clusterFlag && df[0].clusterId == None
  {
    var sorted := SortByTime(Classify(DropUnparsed(rows, parse)));
    var df := EnrichSorted(sorted, haversine);
    SortedSurvivors(rows, parse);
    FirstRowDefaults(sorted, haversine);
    df
  }

  /** The classified rows of a table, without the added columns. */
  function Rows(df: seq<Enriched>): (r: seq<Classified>)
    ensures |r| == |df|
  {
    seq(|df|, i requires 0 <= i < |df| => df[i].row)
  }

  function Flags(df: seq<Enriched>): (r: seq<bool>)
    ensures |r| == |df|
  {
    seq(|df|, i requires 0 <= i < |df| => df[i].clusterFlag)
  }

  /** One row of the table, column by column. */
  lemma EnrichedRow(s: seq<Classified>, haversine: Distance, i: nat)
    requires i < |s|
    ensures var df := EnrichSorted(s, haversine);
      && df[i].row == s[i]
      && df[i].distKm == (if i == 0 then 0.0 else PrevDistance(s, haversine, i))
      && df[i].hoursSincePrev == (if i == 0 then 0.0 else PrevGap(s, i))
      && df[i].clusterFlag == (i != 0 && df[i].hoursSincePrev <= ClusterWindowHours && df[i].distKm <= ClusterRadiusKm)
      && df[i].clusterId == ClusterIds(Flags(df))[i]
  {
    var df := EnrichSorted(s, haversine);
    var dist := DistKm(s, haversine);
    var hours := HoursSincePrev(s);
    var flags := ClusterFlags(hours, dist);
    assert df == Assemble(s, dist, hours, flags, ClusterIds(flags));
    assert Flags(df) == flags;
  }

  /** Row 0 has no predecessor: both predecessor columns are 0 and it is
      never a cluster member. */
  lemma FirstRowDefaults(s: seq<Classified>, haversine: Distance)
    ensures |s| > 0 ==>
      && EnrichSorted(s, haversine)[0].distKm == 0.0
      && EnrichSorted(s, haversine)[0].hoursSincePrev == 0.0
      && !EnrichSorted(s, haversine)[0].clusterFlag
      && EnrichSorted(s, haversine)[0].clusterId == None
  {
    if |s| > 0 {
      EnrichedRow(s, haversine, 0);
    }
  }

  /** Every later row is measured against the row immediately before it in
      time order only; in a sorted table its hour gap is never negative. */
  lemma PredecessorFields(s: seq<Classified>, haversine: Distance, i: nat)
    requires SortedByTime(s) && 1 <= i < |s|
    ensures EnrichSorted(s, haversine)[i].distKm == PrevDistance(s, haversine, i)
    ensures EnrichSorted(s, haversine)[i].hoursSincePrev == PrevGap(s, i)
    ensures EnrichSorted(s, haversine)[i].hoursSincePrev >= 0.0
  {
    EnrichedRow(s, haversine, i);
    GapHoursWindow(s[i - 1].event.time, s[i].event.time);
  }

  /** With a non-negative distance every `dist_km` is non-negative. */
  lemma DistancesNonNegative(s: seq<Classified>, haversine: Distance)
    requires NonNegative(haversine)
    ensures forall i :: 0 <= i < |s| ==> EnrichSorted(s, haversine)[i].distKm >= 0.0
  {
    forall i | 0 <= i < |s|
      ensures EnrichSorted(s, haversine)[i].distKm >= 0.0
    {
      EnrichedRow(s, haversine, i);
    }
  }

  /** A row is a cluster member exactly when it has a predecessor, at most 24
      hours (86400 s) before it and at most 100 km away; both bounds are
      inclusive. */
  lemma ClusterFlagWithinWindow(s: seq<Classified>, haversine: Distance, i: nat)
    requires i < |s|
    ensures EnrichSorted(s, haversine)[i].clusterFlag <==>
      1 <= i &&
      s[i].event.time - s[i - 1].event.time <= ClusterWindowNanos &&
      PrevDistance(s, haversine, i) <= ClusterRadiusKm
  {
    EnrichedRow(s, haversine, i);
    if 1 <= i {
      GapHoursWindow(s[i - 1].event.time, s[i].event.time);
    }
  }

  /** The table's `cluster_id` column is the reference id column of its own
      flags: present exactly for members, and at least 1 where present. */
  lemma ClusterIdsOfTable(s: seq<Classified>, haversine: Distance)
    ensures forall i :: 0 <= i < |s| ==>
      EnrichSorted(s, haversine)[i].clusterId == ClusterIds(Flags(EnrichSorted(s, haversine)))[i]
    ensures forall i :: 0 <= i < |s| ==>
      (EnrichSorted(s, haversine)[i].clusterId.Some? <==> EnrichSorted(s, haversine)[i].clusterFlag)
    ensures forall i :: 0 <= i < |s| && EnrichSorted(s, haversine)[i].clusterId.Some? ==>
      EnrichSorted(s, haversine)[i].clusterId.value >= 1
  {
    var df := EnrichSorted(s, haversine);
    forall i | 0 <= i < |s|
      ensures df[i].clusterId == ClusterIds(Flags(df))[i]
    {
      EnrichedRow(s, haversine, i);
    }
    if |s| > 0 {
      EnrichedRow(s, haversine, 0);
    }
    ClusterIdsPositive(Flags(df));
  }

  /** Two members of the table share a `cluster_id` exactly when no
      non-member lies between them in time order. */
  lemma TableClusterRuns(s: seq<Classified>, haversine: Distance, i: nat, j: nat)
    requires i < j < |s|
    requires EnrichSorted(s, haversine)[i].clusterFlag && EnrichSorted(s, haversine)[j].clusterFlag
    ensures EnrichSorted(s, haversine)[i].clusterId == EnrichSorted(s, haversine)[j].clusterId <==>
      forall k :: i < k < j ==> EnrichSorted(s, haversine)[k].clusterFlag
  {
    ClusterIdsOfTable(s, haversine);
    RunsOfIds(EnrichSorted(s, haversine), i, j);
  }

  /** In any table whose id column is the reference column of its own flags,
      two members share an id exactly when every row between them is a
      member. */
  lemma RunsOfIds(df: seq<Enriched>, i: nat, j: nat)
    requires forall k :: 0 <= k < |df| ==> df[k].clusterId == ClusterIds(Flags(df))[k]
    requires i < j < |df| && df[i].clusterFlag && df[j].clusterFlag
    ensures df[i].clusterId == df[j].clusterId <==> forall k :: i < k < j ==> df[k].clusterFlag
  {
    var flags := Flags(df);
    assert forall k :: 0 <= k < |df| ==> flags[k] == df[k].clusterFlag;
    SameClusterIffUnbroken(flags, i, j);
  }

  lemma PermutationMembers(a: seq<Classified>, b: seq<Classified>)
    requires multiset(a) == multiset(b)
    requires forall j :: 0 <= j < |b| ==> WellClassified(b[j])
    ensures forall i :: 0 <= i < |a| ==> WellClassified(a[i])
  {
    forall i | 0 <= i < |a|
      ensures WellClassified(a[i])
    {
      assert a[i] in multiset(b);
    }
  }

  /** The `cluster_flag` column as it is written: the vectorised test on
      every row, then row 0 overwritten by False. */
  method FlagClusters(hours: seq<real>, dist: seq<real>) returns (flag: array<bool>)
    requires |hours| == |dist|
    ensures fresh(flag)
    ensures flag[..] == ClusterFlags(hours, dist)
  {
    var n := |hours|;
    flag := new bool[n](i requires 0 <= i < n =>
      hours[i] <= ClusterWindowHours && dist[i] <= ClusterRadiusKm);
    if n > 0 {
      flag[0] := false;
    }
  }

  /** The rows that survive the parse, classified and sorted: no more than
      the input, all of them exactly when every time parses, in time order,
      a permutation of the classified survivors, each classified by its own
      magnitude and depth. */
  lemma SortedSurvivors(rows: seq<RawEvent>, parse: string -> Option<int>)
    ensures var sorted := SortByTime(Classify(DropUnparsed(rows, parse)));
      && |sorted| <= |rows|
      && (|sorted| == |rows| <==> forall i :: 0 <= i < |rows| ==> ParseRow(rows[i], parse).Some?)
      && SortedByTime(sorted)
      && multiset(sorted) == multiset(Classify(DropUnparsed(rows, parse)))
      && forall i :: 0 <= i < |sorted| ==> WellClassified(sorted[i])
  {
    var classified := Classify(DropUnparsed(rows, parse));
    PermutationMembers(SortByTime(classified), classified);
  }

  /** `load_data` step by step, writing the flag and id columns in place. */
  method LoadData(rows: seq<RawEvent>, parse: string -> Option<int>, haversine: Distance)
    returns (df: seq<Enriched>)
    ensures df == LoadDataSpec(rows, parse, haversine)
    ensures |df| <= |rows|
    ensures |df| == |rows| <==> forall i :: 0 <= i < |rows| ==> ParseRow(rows[i], parse).Some?
    ensures SortedByTime(Rows(df))
    ensures multiset(Rows(df)) == multiset(Classify(DropUnparsed(rows, parse)))
    ensures forall i :: 0 <= i < |df| ==> WellClassified(df[i].row)
    ensures |df| > 0 ==>
      df[0].distKm == 0.0 && df[0].hoursSincePrev == 0.0 && !df[0].clusterFlag && df[0].clusterId == None
  {
    var survivors := DropUnparsed(rows, parse);
    var classified := Classify(survivors);
    var sorted := SortByTime(classified);
    var dist := DistKm(sorted, haversine);
    var hours := HoursSincePrev(sorted);
    var flag := FlagClusters(hours, dist);
    var clusterId := CumulativeNonMembers(flag);
    MaskNonMembers(flag, clusterId);
    df := Assemble(sorted, dist, hours, flag[..], clusterId[..]);
  }
}
