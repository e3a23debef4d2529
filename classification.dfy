/** The two per-row classifications of `load_data`: `risk_level` through
    `pd.cut` over magnitude, `tectonic_type` through nested `np.where` over
    depth. */
module Classification {
  import opened QuakeTypes

  /** A bin edge as `pd.cut` receives it: a finite number or `np.inf`. */
  datatype Edge = Finite(x: real) | PosInf

  predicate EdgeBelow(e: Edge, x: real) {
    e.Finite? && e.x < x
  }

  predicate EdgeAtLeast(e: Edge, x: real) {
    e.PosInf? || x <= e.x
  }

  predicate EdgeLess(a: Edge, b: Edge) {
    a.Finite? && (b.PosInf? || a.x < b.x)
  }

  predicate Increasing(edges: seq<Edge>) {
    forall i, j :: 0 <= i < j < |edges| ==> EdgeLess(edges[i], edges[j])
  }

  /** With `pd.cut`'s default `right=True`, bin k is the interval
      (edges[k], edges[k+1]]: open on the left, closed on the right. */
  predicate InBin(edges: seq<Edge>, k: int, x: real) {
    0 <= k && k + 1 < |edges| && EdgeBelow(edges[k], x) && EdgeAtLeast(edges[k + 1], x)
  }

  /** The first bin, from index `k` on, that holds `x`. */
  function CutFrom(edges: seq<Edge>, x: real, k: nat): (r: Option<nat>)
    decreases |edges| - k
    ensures r.Some? ==> k <= r.value && InBin(edges, r.value, x)
    ensures r.None? ==> forall j :: k <= j ==> !InBin(edges, j, x)
  {
    if k + 1 >= |edges| then None
    else if InBin(edges, k, x) then Some(k)
    else CutFrom(edges, x, k + 1)
  }

  /** `pd.cut(x, bins=edges)` as a bin index; None is the NaN a value outside
      every bin receives. */
  function Cut(edges: seq<Edge>, x: real): (r: Option<nat>)
    ensures r.Some? ==> InBin(edges, r.value, x)
    ensures r.None? <==> forall j :: !InBin(edges, j, x)
  {
    CutFrom(edges, x, 0)
  }

  /** With increasing edges the bins are disjoint. */
  lemma BinUnique(edges: seq<Edge>, k1: int, k2: int, x: real)
    requires Increasing(edges)
    requires InBin(edges, k1, x) && InBin(edges, k2, x)
    ensures k1 == k2
  {
  }

  const RiskBins: seq<Edge> := [Finite(0.0), Finite(4.0), Finite(5.5), Finite(6.5), PosInf]
  const RiskLabels: seq<Risk> := [Low, Medium, High, Critical]

  /** `risk_level`: `pd.cut(magnitude, bins=[0,4.0,5.5,6.5,inf], labels=...)`. */
  function RiskLevel(magnitude: real): (r: Option<Risk>)
    ensures r.Some? <==> exists k :: InBin(RiskBins, k, magnitude)
  {
    match Cut(RiskBins, magnitude)
    case None => None
    case Some(k) => Some(RiskLabels[k])
  }

  /** The four bins are right-closed and magnitudes at or below zero get no
      label: 4.0 is Low, 5.5 is Medium, 6.5 is High, only above 6.5 is
      Critical. */
  lemma RiskLevelBins(m: real)
    ensures RiskLevel(m) == None <==> m <= 0.0
    ensures RiskLevel(m) == Some(Low) <==> 0.0 < m <= 4.0
    ensures RiskLevel(m) == Some(Medium) <==> 4.0 < m <= 5.5
    ensures RiskLevel(m) == Some(High) <==> 5.5 < m <= 6.5
    ensures RiskLevel(m) == Some(Critical) <==> 6.5 < m
  {
    assert Increasing(RiskBins);
    var k := if m <= 4.0 then 0 else if m <= 5.5 then 1 else if m <= 6.5 then 2 else 3;
    if 0.0 < m {
      assert InBin(RiskBins, k, m);
      var c := Cut(RiskBins, m);
      BinUnique(RiskBins, c.value, k, m);
    } else {
      assert forall j :: !InBin(RiskBins, j, m);
    }
  }

  function RiskRank(r: Risk): nat {
    match r
    case Low => 0
    case Medium => 1
    case High => 2
    case Critical => 3
  }

  /** A larger positive magnitude never gets a lower risk level. */
  lemma RiskLevelMonotone(m1: real, m2: real)
    requires 0.0 < m1 <= m2
    ensures RiskLevel(m1).Some? && RiskLevel(m2).Some?
    ensures RiskRank(RiskLevel(m1).value) <= RiskRank(RiskLevel(m2).value)
  {
    RiskLevelBins(m1);
    RiskLevelBins(m2);
  }

  /** `tectonic_type`: every depth gets exactly one band; the lower bounds
      are inclusive, so 70 km is Intermediate and 300 km is Deep. */
  function TectonicType(depth: real): (t: Tectonic)
    ensures t == Crustal <==> depth < 70.0
    ensures t == Intermediate <==> 70.0 <= depth < 300.0
    ensures t == Deep <==> 300.0 <= depth
  {
    if depth < 70.0 then Crustal
    else if depth < 300.0 then Intermediate
    else Deep
  }

  function TectonicRank(t: Tectonic): nat {
    match t
    case Crustal => 0
    case Intermediate => 1
    case Deep => 2
  }

  /** A deeper event is never in a shallower band. */
  lemma TectonicMonotone(d1: real, d2: real)
    requires d1 <= d2
    ensures TectonicRank(TectonicType(d1)) <= TectonicRank(TectonicType(d2))
  {
  }

  predicate WellClassified(c: Classified) {
    c.riskLevel == RiskLevel(c.event.magnitude) && c.tectonicType == TectonicType(c.event.depth)
  }

  /** Both classification columns, row by row, before the table is sorted. */
  function Classify(events: seq<Event>): (r: seq<Classified>)
    ensures |r| == |events|
    ensures forall i :: 0 <= i < |r| ==> r[i].event == events[i] && WellClassified(r[i])
  {
    seq(|events|, i requires 0 <= i < |events| =>
      Classified(events[i], RiskLevel(events[i].magnitude), TectonicType(events[i].depth)))
  }
}
