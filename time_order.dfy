/** The two stages of `load_data` that decide which rows exist and in what
    order: rows whose `time` does not parse are dropped, and the survivors
    are sorted by time. */
module TimeOrder {
  import opened QuakeTypes
  import opened Classification

  /** `pd.to_datetime(..., errors='coerce')` on one row: `parse` stands for the
      library's reading of the fixed format, None for the NaT it coerces to. */
  function ParseRow(raw: RawEvent, parse: string -> Option<int>): (r: Option<Event>)
    ensures r.Some? <==> parse(raw.time).Some?
    ensures r.Some? ==>
      && r.value.time == parse(raw.time).value
      && r.value.latitude == raw.latitude && r.value.longitude == raw.longitude
      && r.value.magnitude == raw.magnitude && r.value.depth == raw.depth && r.value.place == raw.place
  {
    match parse(raw.time)
    case None => None
    case Some(t) => Some(Event(t, raw.latitude, raw.longitude, raw.magnitude, raw.depth, raw.place))
  }

  /** The positions of the rows whose `time` parses: strictly increasing,
      each one a parsable row, and every parsable row among them. */
  function KeptIndices(rows: seq<RawEvent>, parse: string -> Option<int>): (idx: seq<nat>)
    ensures forall a, b :: 0 <= a < b < |idx| ==> idx[a] < idx[b]
    ensures forall k :: 0 <= k < |idx| ==> idx[k] < |rows| && ParseRow(rows[idx[k]], parse).Some?
    ensures forall i :: 0 <= i < |rows| && ParseRow(rows[i], parse).Some? ==> i in idx
    ensures |idx| <= |rows|
    ensures |idx| == |rows| <==> forall i :: 0 <= i < |rows| ==> ParseRow(rows[i], parse).Some?
  {
    if rows == [] then []
    else
      var init := rows[..|rows| - 1];
      var rest := KeptIndices(init, parse);
      assert forall i :: 0 <= i < |init| ==> init[i] == rows[i];
      if ParseRow(rows[|rows| - 1], parse).Some? then rest + [|rows| - 1] else rest
  }

  /** `df.dropna(subset=['time'])` after the coercing parse: the parsed rows,
      in input order and with their multiplicity, and nothing else. Row k of
      the result is the parse of input row `KeptIndices(rows, parse)[k]`. */
  function DropUnparsed(rows: seq<RawEvent>, parse: string -> Option<int>): (r: seq<Event>)
    ensures |r| == |KeptIndices(rows, parse)|
    ensures forall k :: 0 <= k < |r| ==> ParseRow(rows[KeptIndices(rows, parse)[k]], parse) == Some(r[k])
    ensures |r| <= |rows|
    ensures |r| == |rows| <==> forall i :: 0 <= i < |rows| ==> ParseRow(rows[i], parse).Some?
    ensures forall k :: 0 <= k < |r| ==>
      exists i :: 0 <= i < |rows| && ParseRow(rows[i], parse) == Some(r[k])
    ensures forall i :: 0 <= i < |rows| && ParseRow(rows[i], parse).Some? ==>
      ParseRow(rows[i], parse).value in r
  {
    var idx := KeptIndices(rows, parse);
    var r := seq(|idx|, k requires 0 <= k < |idx| => ParseRow(rows[idx[k]], parse).value);
    KeptRows(rows, parse, r);
    r
  }

  /** Rows matched one to one with the kept positions are the parsed rows:
      no more of them than input rows, all of them when every row parses,
      each one parsed from some row, and every parsed row among them. */
  lemma KeptRows(rows: seq<RawEvent>, parse: string -> Option<int>, r: seq<Event>)
    requires |r| == |KeptIndices(rows, parse)|
    requires forall k :: 0 <= k < |r| ==> ParseRow(rows[KeptIndices(rows, parse)[k]], parse) == Some(r[k])
    ensures |r| <= |rows|
    ensures |r| == |rows| <==> forall i :: 0 <= i < |rows| ==> ParseRow(rows[i], parse).Some?
    ensures forall k :: 0 <= k < |r| ==>
      exists i :: 0 <= i < |rows| && ParseRow(rows[i], parse) == Some(r[k])
    ensures forall i :: 0 <= i < |rows| && ParseRow(rows[i], parse).Some? ==>
      ParseRow(rows[i], parse).value in r
  {
    var idx := KeptIndices(rows, parse);
    forall i | 0 <= i < |rows| && ParseRow(rows[i], parse).Some?
      ensures ParseRow(rows[i], parse).value in r
    {
      var k :| 0 <= k < |idx| && idx[k] == i;
      assert ParseRow(rows[i], parse) == Some(r[k]);
    }
  }

  /** Times never decrease from one row to the next. */
  predicate SortedByTime(s: seq<Classified>) {
    forall i :: 0 < i < |s| ==> s[i - 1].event.time <= s[i].event.time
  }

  /** In a sorted table no row is later than any row after it. */
  lemma {:induction false} SortedPairwise(s: seq<Classified>)
    requires SortedByTime(s)
    ensures forall i, j :: 0 <= i <= j < |s| ==> s[i].event.time <= s[j].event.time
  {
    if |s| > 1 {
      var init := s[..|s| - 1];
      assert SortedByTime(init);
      SortedPairwise(init);
      assert forall i :: 0 <= i < |init| ==> init[i] == s[i];
      forall i | 0 <= i < |s| - 1
        ensures s[i].event.time <= s[|s| - 1].event.time
      {
        assert s[i].event.time <= s[|s| - 2].event.time;
      }
    }
  }

  function InsertByTime(x: Classified, s: seq<Classified>): (r: seq<Classified>)
    requires SortedByTime(s)
    ensures SortedByTime(r)
    ensures multiset(r) == multiset(s) + multiset{x}
    ensures |r| == |s| + 1 && (r[0] == x || (s != [] && r[0] == s[0]))
  {
    if s == [] || x.event.time <= s[0].event.time then [x] + s
    else
      var rest := InsertByTime(x, s[1..]);
      assert s == [s[0]] + s[1..];
      [s[0]] + rest
  }

  /** `df.sort_values('time')`: the rows reordered so that times never
      decrease. The library's default sort is not stable, so only the
      ordering and the permutation are promised; every later stage is proved
      for an arbitrary sorted permutation. */
  function SortByTime(s: seq<Classified>): (r: seq<Classified>)
    ensures SortedByTime(r)
    ensures multiset(r) == multiset(s)
    ensures |r| == |s|
  {
    if s == [] then []
    else
      assert s == [s[0]] + s[1..];
      InsertByTime(s[0], SortByTime(s[1..]))
  }
}
