/** Cluster ids from the `cluster_flag` column: a running count of the rows
    that are not cluster members (`(~cluster_flag).cumsum()`), after which
    every non-member loses its id. */
module Clustering {
  import opened QuakeTypes

  /** The number of non-member rows in `flags`. */
  function NonMembers(flags: seq<bool>): (n: nat)
    ensures n <= |flags|
  {
    if flags == [] then 0
    else NonMembers(flags[..|flags| - 1]) + (if flags[|flags| - 1] then 0 else 1)
  }

  /** `(~cluster_flag).cumsum()`: for every row, the number of non-members
      at or before it. */
  function RunningCount(flags: seq<bool>): (counts: seq<nat>)
    ensures |counts| == |flags|
  {
    seq(|flags|, i requires 0 <= i < |flags| => NonMembers(flags[..i + 1]))
  }

  /** The reference definition of the `cluster_id` column: a member keeps its
      running count, a non-member has no id. */
  function ClusterIds(flags: seq<bool>): (ids: seq<Option<nat>>)
    ensures |ids| == |flags|
    ensures forall i :: 0 <= i < |flags| ==> (ids[i].Some? <==> flags[i])
  {
    var counts := RunningCount(flags);
    seq(|flags|, i requires 0 <= i < |flags| => if flags[i] then Some(counts[i]) else None)
  }

  /** Extending a prefix by one row adds one to the count for a non-member. */
  lemma NonMembersStep(flags: seq<bool>, i: nat)
    requires i < |flags|
    ensures NonMembers(flags[..i + 1]) == NonMembers(flags[..i]) + (if flags[i] then 0 else 1)
  {
    assert flags[..i + 1][..i] == flags[..i];
  }

  /** The running count is a cumulative sum: the first entry counts the first
      row, and each later entry is the one before it plus one exactly when
      its row is a non-member. */
  lemma {:induction false} RunningCountSteps(flags: seq<bool>)
    ensures |flags| > 0 ==> RunningCount(flags)[0] == if flags[0] then 0 else 1
    ensures forall i :: 1 <= i < |flags| ==>
      RunningCount(flags)[i] == RunningCount(flags)[i - 1] + if flags[i] then 0 else 1
  {
    if |flags| > 0 {
      NonMembersStep(flags, 0);
      assert flags[..0] == [];
    }
    forall i | 1 <= i < |flags|
      ensures RunningCount(flags)[i] == RunningCount(flags)[i - 1] + if flags[i] then 0 else 1
    {
      NonMembersStep(flags, i);
    }
  }

  /** The cumulative sum, written as the new `cluster_id` column: a counter
      that steps up at every non-member, stored in every row. */
  method CumulativeNonMembers(flag: array<bool>) returns (clusterId: array<Option<nat>>)
    ensures fresh(clusterId) && clusterId.Length == flag.Length
    ensures forall k :: 0 <= k < flag.Length ==> clusterId[k] == Some(RunningCount(flag[..])[k])
  {
    var n := flag.Length;
    ghost var flags := flag[..];
    clusterId := new Option<nat>[n];
    var count := 0;
    for i := 0 to n
      invariant count == NonMembers(flags[..i])
      invariant forall k :: 0 <= k < i ==> clusterId[k] == Some(NonMembers(flags[..k + 1]))
    {
      NonMembersStep(flags, i);
      if !flag[i] {
        count := count + 1;
      }
      clusterId[i] := Some(count);
    }
  }

  /** `df.loc[cluster_flag == False, 'cluster_id'] = NaN`: non-members lose
      their id in place, members keep theirs. */
  method MaskNonMembers(flag: array<bool>, clusterId: array<Option<nat>>)
    requires clusterId.Length == flag.Length
    requires forall k :: 0 <= k < flag.Length ==> clusterId[k] == Some(RunningCount(flag[..])[k])
    modifies clusterId
    ensures clusterId[..] == ClusterIds(flag[..])
  {
    for i := 0 to flag.Length
      invariant forall k :: 0 <= k < i ==> clusterId[k] == ClusterIds(flag[..])[k]
      invariant forall k :: i <= k < flag.Length ==> clusterId[k] == Some(RunningCount(flag[..])[k])
    {
      if !flag[i] {
        clusterId[i] := None;
      }
    }
  }

  lemma {:induction false} NonMembersAppend(a: seq<bool>, b: seq<bool>)
    ensures NonMembers(a + b) == NonMembers(a) + NonMembers(b)
    decreases |b|
  {
    if b == [] {
      assert a + b == a;
    } else {
      var b' := b[..|b| - 1];
      assert (a + b)[..|a + b| - 1] == a + b';
      NonMembersAppend(a, b');
    }
  }

  lemma {:induction false} NoNonMembers(s: seq<bool>)
    ensures NonMembers(s) == 0 <==> forall k :: 0 <= k < |s| ==> s[k]
  {
    if s != [] {
      var s' := s[..|s| - 1];
      NoNonMembers(s');
      assert forall k :: 0 <= k < |s'| ==> s'[k] == s[k];
    }
  }

  /** The running count over a longer prefix is never smaller, and it grows
      by exactly the non-members in between. */
  lemma PrefixCount(flags: seq<bool>, i: nat, j: nat)
    requires i <= j <= |flags|
    ensures NonMembers(flags[..j]) == NonMembers(flags[..i]) + NonMembers(flags[i..j])
  {
    assert flags[..j] == flags[..i] + flags[i..j];
    NonMembersAppend(flags[..i], flags[i..j]);
  }

  /** When the first row is not a member, every id present is at least 1. */
  lemma ClusterIdsPositive(flags: seq<bool>)
    requires flags == [] || !flags[0]
    ensures forall i :: 0 <= i < |flags| && ClusterIds(flags)[i].Some? ==> ClusterIds(flags)[i].value >= 1
  {
    forall i | 0 <= i < |flags| && flags[i]
      ensures NonMembers(flags[..i + 1]) >= 1
    {
      PrefixCount(flags, 1, i + 1);
      assert flags[..1] == [flags[0]];
      assert flags[..1][..0] == [];
    }
  }

  /** Ids, where present, never decrease in time order. */
  lemma ClusterIdsNonDecreasing(flags: seq<bool>)
    ensures forall i, j :: 0 <= i < j < |flags| && ClusterIds(flags)[i].Some? && ClusterIds(flags)[j].Some? ==>
      ClusterIds(flags)[i].value <= ClusterIds(flags)[j].value
  {
    forall i, j | 0 <= i < j < |flags| && flags[i] && flags[j]
      ensures NonMembers(flags[..i + 1]) <= NonMembers(flags[..j + 1])
    {
      PrefixCount(flags, i + 1, j + 1);
    }
  }

  /** Two members share an id exactly when no non-member lies between them. */
  lemma SameClusterIffUnbroken(flags: seq<bool>, i: nat, j: nat)
    requires i < j < |flags| && flags[i] && flags[j]
    ensures ClusterIds(flags)[i] == ClusterIds(flags)[j] <==> forall k :: i < k < j ==> flags[k]
  {
    PrefixCount(flags, i + 1, j + 1);
    NoNonMembers(flags[i + 1..j + 1]);
    assert forall k :: i < k <= j ==> flags[i + 1..j + 1][k - i - 1] == flags[k];
  }

  /** Every row between two members with the same id is a member with that
      same id: a cluster is a contiguous run. */
  lemma SameClusterContiguous(flags: seq<bool>, i: nat, k: nat, j: nat)
    requires i < k < j < |flags|
    requires ClusterIds(flags)[i].Some? && ClusterIds(flags)[i] == ClusterIds(flags)[j]
    ensures flags[k] && ClusterIds(flags)[k] == ClusterIds(flags)[i]
  {
    SameClusterIffUnbroken(flags, i, j);
    SameClusterIffUnbroken(flags, i, k);
  }

  /** A non-member between two members separates them into distinct ids. */
  lemma BreakSeparatesClusters(flags: seq<bool>, i: nat, k: nat, j: nat)
    requires i < k < j < |flags| && flags[i] && !flags[k] && flags[j]
    ensures ClusterIds(flags)[i].value < ClusterIds(flags)[j].value
  {
    var between := flags[i + 1..j + 1];
    PrefixCount(flags, i + 1, j + 1);
    assert !between[k - i - 1];
    NoNonMembers(between);
    assert NonMembers(flags[..i + 1]) < NonMembers(flags[..j + 1]);
  }

  /** The distinct ids present in the column. */
  function IdsInUse(flags: seq<bool>): set<nat> {
    var ids := ClusterIds(flags);
    set i | 0 <= i < |ids| && ids[i].Some? :: ids[i].value
  }

  /** The ids 1 to n. */
  function IdRange(n: nat): (r: set<nat>)
    ensures |r| == n
    ensures forall k :: k in r <==> 1 <= k <= n
  {
    if n == 0 then {} else IdRange(n - 1) + {n}
  }

  lemma {:induction false} SubsetSize(a: set<nat>, b: set<nat>)
    requires a <= b
    ensures |a| <= |b|
    decreases |b|
  {
    if a != {} {
      var x :| x in a;
      SubsetSize(a - {x}, b - {x});
    }
  }

  /** When the first row is not a member, there are no more distinct ids than
      non-member rows: each id names the non-member that anchors its run. */
  lemma ClusterCountBound(flags: seq<bool>)
    requires flags == [] || !flags[0]
    ensures |IdsInUse(flags)| <= NonMembers(flags)
  {
    var n := NonMembers(flags);
    ClusterIdsPositive(flags);
    forall i | 0 <= i < |flags| && flags[i]
      ensures 1 <= ClusterIds(flags)[i].value <= n
    {
      assert ClusterIds(flags)[i] == Some(NonMembers(flags[..i + 1]));
      PrefixCount(flags, i + 1, |flags|);
      assert flags[..|flags|] == flags;
    }
    assert IdsInUse(flags) <= IdRange(n);
    SubsetSize(IdsInUse(flags), IdRange(n));
  }
}
