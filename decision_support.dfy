/** The "Recommended Actions" rules of the dashboard: four thresholds over
    counts taken from the (filtered) enriched table, each appending one
    action in a fixed order. */
module DecisionSupport {
  import opened QuakeTypes
  import opened Classification

  const IncreaseMonitoring: string := "Increase monitoring frequency"
  const IssueAlerts: string := "Issue public safety alerts"
  const DeployTeams: string := "Deploy field assessment teams"
  const PrepareTsunami: string := "Prepare tsunami early warning"

  /** `timedelta(hours=24)` in nanoseconds. */
  const DayNanos: int := 86_400_000_000_000
  /** The magnitude from which an event counts towards the tsunami rule. */
  const TsunamiMagnitude: real := 5.5

  /** The number of rows of `df` that satisfy `p`: `len(df[mask])`. */
  function Count(df: seq<Enriched>, p: Enriched -> bool): (n: nat)
    ensures n == |set i | 0 <= i < |df| && p(df[i])|
    ensures n <= |df|
    ensures n > 0 <==> exists i :: 0 <= i < |df| && p(df[i])
  {
    if df == [] then 0
    else
      var last := |df| - 1;
      var init := df[..last];
      assert forall i :: 0 <= i < |init| ==> init[i] == df[i];
      var before := set i | 0 <= i < |init| && p(init[i]);
      assert (set i | 0 <= i < |df| && p(df[i])) == before + (if p(df[last]) then {last} else {});
      assert last !in before;
      Count(init, p) + (if p(df[last]) then 1 else 0)
  }

  /** `df['time'].max()`. */
  function MaxTime(df: seq<Enriched>): (t: int)
    requires df != []
    ensures forall i :: 0 <= i < |df| ==> df[i].row.event.time <= t
    ensures exists i :: 0 <= i < |df| && df[i].row.event.time == t
  {
    if |df| == 1 then df[0].row.event.time
    else
      var m := MaxTime(df[1..]);
      assert forall i :: 1 <= i < |df| ==> df[i] == df[1..][i - 1];
      if df[0].row.event.time >= m then df[0].row.event.time else m
  }

  /** The positions of the rows at most 24 hours before the latest row. */
  function RecentRows(df: seq<Enriched>): set<nat>
    requires df != []
  {
    set i | 0 <= i < |df| && df[i].row.event.time >= MaxTime(df) - DayNanos
  }

  /** `recent_24h`: the number of rows at most 24 hours before the latest
      one, which is at least that latest row itself; an empty table has
      none. */
  function Recent24h(df: seq<Enriched>): (n: nat)
    ensures df == [] ==> n == 0
    ensures df != [] ==> n == |RecentRows(df)|
    ensures df != [] ==> n >= 1
  {
    if df == [] then 0
    else
      var latest := MaxTime(df);
      var recent := (e: Enriched) => e.row.event.time >= latest - DayNanos;
      assert (set i | 0 <= i < |df| && recent(df[i])) ==
        (set i | 0 <= i < |df| && df[i].row.event.time >= latest - DayNanos);
      Count(df, recent)
  }

  /** `critical_events`: the number of rows whose risk level is Critical. */
  function CriticalEvents(df: seq<Enriched>): (n: nat)
    ensures n == |set i | 0 <= i < |df| && df[i].row.riskLevel == Some(Critical)|
    ensures n > 0 <==> exists i :: 0 <= i < |df| && df[i].row.riskLevel == Some(Critical)
  {
    var critical := (e: Enriched) => e.row.riskLevel == Some(Critical);
    assert (set i | 0 <= i < |df| && critical(df[i])) ==
      (set i | 0 <= i < |df| && df[i].row.riskLevel == Some(Critical));
    Count(df, critical)
  }

  /** `len(clusters)`: the number of rows flagged as cluster members. */
  function ClusterEvents(df: seq<Enriched>): (n: nat)
    ensures n == |set i | 0 <= i < |df| && df[i].clusterFlag|
  {
    var member := (e: Enriched) => e.clusterFlag;
    assert (set i | 0 <= i < |df| && member(df[i])) == (set i | 0 <= i < |df| && df[i].clusterFlag);
    Count(df, member)
  }

  /** The number of rows with magnitude at least 5.5. */
  function StrongEvents(df: seq<Enriched>): (n: nat)
    ensures n == |set i | 0 <= i < |df| && df[i].row.event.magnitude >= TsunamiMagnitude|
  {
    var strong := (e: Enriched) => e.row.event.magnitude >= TsunamiMagnitude;
    assert (set i | 0 <= i < |df| && strong(df[i])) ==
      (set i | 0 <= i < |df| && df[i].row.event.magnitude >= TsunamiMagnitude);
    Count(df, strong)
  }

  function ActionRank(a: string): nat {
    if a == IncreaseMonitoring then 0
    else if a == IssueAlerts then 1
    else if a == DeployTeams then 2
    else 3
  }

  /** The four rules: each action is recommended exactly when its threshold
      is passed, none twice, and always in the fixed order monitoring,
      alerts, teams, tsunami. */
  function Actions(recent24h: nat, criticalEvents: nat, clusterEvents: nat, strongEvents: nat)
    : (actions: seq<string>)
    ensures IncreaseMonitoring in actions <==> recent24h > 10
    ensures IssueAlerts in actions <==> criticalEvents > 0
    ensures DeployTeams in actions <==> clusterEvents > 5
    ensures PrepareTsunami in actions <==> strongEvents > 3
    ensures actions == [] <==> recent24h <= 10 && criticalEvents == 0 && clusterEvents <= 5 && strongEvents <= 3
    ensures forall a :: a in actions ==>
      a == IncreaseMonitoring || a == IssueAlerts || a == DeployTeams || a == PrepareTsunami
    ensures forall i, j :: 0 <= i < j < |actions| ==> ActionRank(actions[i]) < ActionRank(actions[j])
  {
    (if recent24h > 10 then [IncreaseMonitoring] else []) +
    (if criticalEvents > 0 then [IssueAlerts] else []) +
    (if clusterEvents > 5 then [DeployTeams] else []) +
    (if strongEvents > 3 then [PrepareTsunami] else [])
  }

  /** The recommended actions for a (filtered) enriched table, each rule
      read off the rows themselves. */
  function RecommendedActions(df: seq<Enriched>): (actions: seq<string>)
    ensures IncreaseMonitoring in actions <==>
      df != [] && |RecentRows(df)| > 10
    ensures IssueAlerts in actions <==> exists i :: 0 <= i < |df| && df[i].row.riskLevel == Some(Critical)
    ensures DeployTeams in actions <==> |set i | 0 <= i < |df| && df[i].clusterFlag| > 5
    ensures PrepareTsunami in actions <==>
      |set i | 0 <= i < |df| && df[i].row.event.magnitude >= TsunamiMagnitude| > 3
    ensures forall a :: a in actions ==>
      a == IncreaseMonitoring || a == IssueAlerts || a == DeployTeams || a == PrepareTsunami
    ensures forall i, j :: 0 <= i < j < |actions| ==> ActionRank(actions[i]) < ActionRank(actions[j])
  {
    var recent := Recent24h(df);
    var critical := CriticalEvents(df);
    var members := ClusterEvents(df);
    var strong := StrongEvents(df);
    Actions(recent, critical, members, strong)
  }

  /** Public safety alerts are issued exactly when some row has magnitude
      above 6.5: a row of magnitude exactly 6.5 is High and raises none, even
      though the summary tile labels its count "M>=6.5". */
  lemma AlertsIffAboveCriticalBound(df: seq<Enriched>)
    requires forall i :: 0 <= i < |df| ==> WellClassified(df[i].row)
    ensures IssueAlerts in RecommendedActions(df) <==>
      exists i :: 0 <= i < |df| && df[i].row.event.magnitude > 6.5
  {
    forall i | 0 <= i < |df|
      ensures df[i].row.riskLevel == Some(Critical) <==> df[i].row.event.magnitude > 6.5
    {
      RiskLevelBins(df[i].row.event.magnitude);
    }
  }
}
