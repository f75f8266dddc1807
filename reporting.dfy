/**
 * The reporting half of `src/main.py`: the frame read back from the CSV, grouped by cluster,
 * for the word clouds (`display_word_clouds`) and the bar graph (`plot_bar_graph`).
 * A missing CSV value (NaN) is `None`.
 */
module Reporting {
  import opened Wrappers
  import opened Seqs
  import opened PyStr

  /** A row of the clustered frame: its `cluster`, `like_count` and `post_clean` cells. */
  datatype Record = Record(cluster: Option<int>, likeCount: Option<int>, postClean: Option<string>)

  // ---------------------------------------------------------------------------------------
  // groupby('cluster'): the group keys

  predicate Ascending(ks: seq<int>) {
    forall i, j :: 0 <= i < j < |ks| ==> ks[i] < ks[j]
  }

  /** Adds a key to an ascending sequence of distinct keys. */
  function InsertKey(k: int, ks: seq<int>): (r: seq<int>)
    requires Ascending(ks)
    ensures Ascending(r)
    ensures forall x :: x in r <==> x == k || x in ks
  {
    if ks == [] then [k]
    else if k < ks[0] then [k] + ks
    else if k == ks[0] then ks
    else
      var rest := InsertKey(k, ks[1..]);
      forall x | x in rest ensures ks[0] < x {
        if x != k {
          var i :| 0 <= i < |ks[1..]| && ks[1..][i] == x;
          assert ks[i + 1] == x;
        }
      }
      ConsAscending(ks[0], rest);
      [ks[0]] + rest
  }

  lemma ConsAscending(h: int, rest: seq<int>)
    requires Ascending(rest) && forall x :: x in rest ==> h < x
    ensures Ascending([h] + rest)
  {
    var r := [h] + rest;
    forall i, j | 0 <= i < j < |r| ensures r[i] < r[j] {
      assert r[j] == rest[j - 1] && rest[j - 1] in rest;
      if i > 0 {
        assert r[i] == rest[i - 1];
      }
    }
  }

  /** The distinct keys of `cs` in ascending order, as `groupby` sorts its groups. */
  function GroupKeys(cs: seq<int>): (r: seq<int>)
    ensures Ascending(r)
    ensures forall x :: x in r <==> x in cs
  {
    if cs == [] then [] else InsertKey(cs[0], GroupKeys(cs[1..]))
  }

  /** The non-null cluster ids of the rows, in row order; `groupby` drops null keys. */
  function ClusterIds(recs: seq<Record>): (r: seq<int>)
    ensures forall x :: x in r <==> exists i :: 0 <= i < |recs| && recs[i].cluster == Some(x)
  {
    if recs == [] then []
    else
      var rest := ClusterIds(recs[1..]);
      assert forall i :: 1 <= i < |recs| ==> recs[i] == recs[1..][i - 1];
      (if recs[0].cluster.Some? then [recs[0].cluster.value] else []) + rest
  }

  /**
   * The groups `groupby('cluster')` forms over the rows: exactly the clusters some row belongs
   * to, ascending and each once.
   */
  function Clusters(recs: seq<Record>): (ks: seq<int>)
    ensures Ascending(ks)
    ensures forall k :: k in ks <==> exists i :: 0 <= i < |recs| && recs[i].cluster == Some(k)
  {
    GroupKeys(ClusterIds(recs))
  }

  // ---------------------------------------------------------------------------------------
  // display_word_clouds

  predicate HasPost(r: Record) {
    r.postClean.Some?
  }

  /** The `post_clean` texts of the rows of cluster `k` that have one, in row order. */
  function ClusterTexts(recs: seq<Record>, k: int): (ts: seq<string>)
    ensures |ts| <= |recs|
    ensures forall t :: t in ts <==>
      exists i :: 0 <= i < |recs| && recs[i].cluster == Some(k) && recs[i].postClean == Some(t)
  {
    if recs == [] then []
    else
      var rest := ClusterTexts(recs[1..], k);
      assert forall i :: 1 <= i < |recs| ==> recs[i] == recs[1..][i - 1];
      (if recs[0].cluster == Some(k) && recs[0].postClean.Some? then [recs[0].postClean.value] else []) + rest
  }

  /** One word cloud: the cluster number and the text it is generated from. */
  datatype Cloud = Cloud(cluster: int, text: string)

  /**
   * `dropna(subset=['post_clean'])`, then `groupby('cluster')['post_clean']` joined with single
   * spaces: one cloud per remaining group, in group order.
   */
  function WordClouds(recs: seq<Record>): seq<Cloud>
  {
    var posted := Filter(HasPost, recs);
    var ks := Clusters(posted);
    seq(|ks|, j requires 0 <= j < |ks| => Cloud(ks[j], JoinSpace(ClusterTexts(posted, ks[j]))))
  }

  /** Dropping rows without `post_clean` leaves every cluster's texts as they were. */
  lemma {:induction false} DropNaKeepsTexts(recs: seq<Record>, k: int)
    ensures ClusterTexts(Filter(HasPost, recs), k) == ClusterTexts(recs, k)
  {
    if recs != [] {
      DropNaKeepsTexts(recs[1..], k);
      assert recs == [recs[0]] + recs[1..];
      FilterAppend(HasPost, [recs[0]], recs[1..]);
      var head := Filter(HasPost, [recs[0]]);
      if HasPost(recs[0]) {
        assert head == [recs[0]];
      } else {
        assert head == [];
      }
      var rest := Filter(HasPost, recs[1..]);
      assert Filter(HasPost, recs) == head + rest;
      if head != [] {
        assert (head + rest)[1..] == rest;
      } else {
        assert head + rest == rest;
      }
    }
  }

  /** The rows of `Filter(HasPost, recs)` are those of `recs` with a `post_clean` text. */
  lemma PostedRows(recs: seq<Record>, k: int)
    ensures (exists i :: 0 <= i < |Filter(HasPost, recs)| && Filter(HasPost, recs)[i].cluster == Some(k)) <==>
      (exists i :: 0 <= i < |recs| && recs[i].cluster == Some(k) && recs[i].postClean.Some?)
  {
    var posted := Filter(HasPost, recs);
    if exists i :: 0 <= i < |posted| && posted[i].cluster == Some(k) {
      var i :| 0 <= i < |posted| && posted[i].cluster == Some(k);
      PostedRowWasThere(recs, posted[i]);
    }
    if exists i :: 0 <= i < |recs| && recs[i].cluster == Some(k) && recs[i].postClean.Some? {
      var i :| 0 <= i < |recs| && recs[i].cluster == Some(k) && recs[i].postClean.Some?;
      PostedRowKept(recs, i);
    }
  }

  lemma PostedRowWasThere(recs: seq<Record>, r: Record)
    requires r in Filter(HasPost, recs)
    ensures exists i :: 0 <= i < |recs| && recs[i] == r && r.postClean.Some?
  {
    var posted := Filter(HasPost, recs);
    var m :| 0 <= m < |posted| && posted[m] == r;
    assert HasPost(posted[m]) && posted[m] in recs;
  }

  lemma PostedRowKept(recs: seq<Record>, i: nat)
    requires i < |recs| && recs[i].postClean.Some?
    ensures exists m :: 0 <= m < |Filter(HasPost, recs)| && Filter(HasPost, recs)[m] == recs[i]
  {
    assert HasPost(recs[i]);
    assert recs[i] in Filter(HasPost, recs);
  }

  /**
   * There is one cloud per cluster that has a row with a `post_clean` text, in ascending
   * cluster order; each cloud's text holds, in row order, exactly the words of that cluster's
   * texts.
   */
  lemma WordCloudsOfRows(recs: seq<Record>)
    ensures forall i, j :: 0 <= i < j < |WordClouds(recs)| ==> WordClouds(recs)[i].cluster < WordClouds(recs)[j].cluster
    ensures forall k :: (exists j :: 0 <= j < |WordClouds(recs)| && WordClouds(recs)[j].cluster == k) <==>
      (exists i :: 0 <= i < |recs| && recs[i].cluster == Some(k) && recs[i].postClean.Some?)
    ensures forall j :: 0 <= j < |WordClouds(recs)| ==>
      Words(WordClouds(recs)[j].text) == WordsOfAll(ClusterTexts(recs, WordClouds(recs)[j].cluster))
  {
    var posted := Filter(HasPost, recs);
    var ks := Clusters(posted);
    var cs := WordClouds(recs);
    assert forall j :: 0 <= j < |cs| ==> cs[j].cluster == ks[j];
    forall k
      ensures (exists j :: 0 <= j < |cs| && cs[j].cluster == k) <==>
        (exists i :: 0 <= i < |recs| && recs[i].cluster == Some(k) && recs[i].postClean.Some?)
    {
      PostedRows(recs, k);
      if k in ks {
        var j :| 0 <= j < |ks| && ks[j] == k;
        assert cs[j].cluster == k;
      }
    }
    forall j | 0 <= j < |cs|
      ensures Words(cs[j].text) == WordsOfAll(ClusterTexts(recs, cs[j].cluster))
    {
      DropNaKeepsTexts(recs, ks[j]);
      WordsOfJoin(ClusterTexts(posted, ks[j]));
    }
  }

  // ---------------------------------------------------------------------------------------
  // plot_bar_graph

  /** A row's contribution to `sum` of `like_count`: NaN is skipped. */
  function LikeValue(r: Record): int {
    if r.likeCount.Some? then r.likeCount.value else 0
  }

  /** A row's contribution to `count` of `like_count`: NaN is not counted. */
  function Counted(r: Record): int {
    if r.likeCount.Some? then 1 else 0
  }

  /** The sum of `f` over the rows whose cluster is in `s`. */
  function SumIn(f: Record -> int, recs: seq<Record>, s: set<int>): int
  {
    if recs == [] then 0
    else (if recs[0].cluster.Some? && recs[0].cluster.value in s then f(recs[0]) else 0) + SumIn(f, recs[1..], s)
  }

  /** The sum of `f` over all rows. */
  function SumAll(f: Record -> int, recs: seq<Record>): int
  {
    if recs == [] then 0 else f(recs[0]) + SumAll(f, recs[1..])
  }

  /** One row of the `agg` result. */
  datatype ClusterTotal = ClusterTotal(cluster: int, totalLikes: int, totalComments: int)

  /** The `agg` rows for the keys `ks`, in key order. */
  function TotalsFor(recs: seq<Record>, ks: seq<int>): (ts: seq<ClusterTotal>)
    ensures |ts| == |ks| && forall j :: 0 <= j < |ks| ==> ts[j].cluster == ks[j]
  {
    if ks == [] then []
    else [ClusterTotal(ks[0], SumIn(LikeValue, recs, {ks[0]}), SumIn(Counted, recs, {ks[0]}))] + TotalsFor(recs, ks[1..])
  }

  /**
   * `df.groupby('cluster').agg(total_likes=('like_count', 'sum'),
   * total_comments=('like_count', 'count'))`.
   */
  function PlotTotals(recs: seq<Record>): seq<ClusterTotal>
  {
    TotalsFor(recs, Clusters(recs))
  }

  function SumLikes(ts: seq<ClusterTotal>): int
  {
    if ts == [] then 0 else ts[0].totalLikes + SumLikes(ts[1..])
  }

  function SumComments(ts: seq<ClusterTotal>): int
  {
    if ts == [] then 0 else ts[0].totalComments + SumComments(ts[1..])
  }

  /** Each `agg` row holds its cluster's like sum and like count; the rows follow the groups. */
  lemma PlotTotalsOfRows(recs: seq<Record>)
    ensures |PlotTotals(recs)| == |Clusters(recs)|
    ensures forall j :: 0 <= j < |PlotTotals(recs)| ==> (PlotTotals(recs)[j] ==
      ClusterTotal(Clusters(recs)[j], SumIn(LikeValue, recs, {Clusters(recs)[j]}), SumIn(Counted, recs, {Clusters(recs)[j]})))
  {
    TotalsForRows(recs, Clusters(recs));
  }

  lemma {:induction false} TotalsForRows(recs: seq<Record>, ks: seq<int>)
    ensures forall j :: 0 <= j < |ks| ==> (TotalsFor(recs, ks)[j] ==
      ClusterTotal(ks[j], SumIn(LikeValue, recs, {ks[j]}), SumIn(Counted, recs, {ks[j]})))
  {
    if ks != [] {
      TotalsForRows(recs, ks[1..]);
      forall j | 1 <= j < |ks| ensures TotalsFor(recs, ks)[j] == TotalsFor(recs, ks[1..])[j - 1] {
      }
    }
  }

  /** Summing over a cluster set with one more cluster adds that cluster's sum. */
  lemma {:induction false} SumInSplit(f: Record -> int, recs: seq<Record>, s: set<int>, k: int)
    requires k !in s
    ensures SumIn(f, recs, s + {k}) == SumIn(f, recs, s) + SumIn(f, recs, {k})
  {
    if recs != [] {
      SumInSplit(f, recs[1..], s, k);
    }
  }

  /** With every row in a cluster of `s`, the sum over `s` is the sum over all rows. */
  lemma {:induction false} SumInAll(f: Record -> int, recs: seq<Record>, s: set<int>)
    requires forall i :: 0 <= i < |recs| ==> recs[i].cluster.Some? && recs[i].cluster.value in s
    ensures SumIn(f, recs, s) == SumAll(f, recs)
  {
    if recs != [] {
      assert forall i :: 1 <= i < |recs| ==> recs[1..][i - 1] == recs[i];
      SumInAll(f, recs[1..], s);
    }
  }

  /** The keys of `ks` as a set. */
  function KeySet(ks: seq<int>): (s: set<int>)
    ensures forall k :: k in s <==> k in ks
  {
    if ks == [] then {} else {ks[0]} + KeySet(ks[1..])
  }

  /** The per-cluster sums of `f` for the keys `ks`, added up. */
  function PerKey(f: Record -> int, recs: seq<Record>, ks: seq<int>): int
  {
    if ks == [] then 0 else SumIn(f, recs, {ks[0]}) + PerKey(f, recs, ks[1..])
  }

  /** Adding up the per-cluster sums of distinct keys is summing over the set of those keys. */
  lemma {:induction false} PerKeySum(f: Record -> int, recs: seq<Record>, ks: seq<int>)
    requires Ascending(ks)
    ensures PerKey(f, recs, ks) == SumIn(f, recs, KeySet(ks))
  {
    if ks == [] {
      EmptyKeys(f, recs);
    } else {
      PerKeySum(f, recs, ks[1..]);
      assert ks[0] !in ks[1..];
      assert KeySet(ks) == KeySet(ks[1..]) + {ks[0]};
      SumInSplit(f, recs, KeySet(ks[1..]), ks[0]);
    }
  }

  lemma {:induction false} EmptyKeys(f: Record -> int, recs: seq<Record>)
    ensures SumIn(f, recs, {}) == 0
  {
    if recs != [] {
      EmptyKeys(f, recs[1..]);
    }
  }

  /** The `agg` rows' columns are the per-cluster sums of likes and counts. */
  lemma {:induction false} TotalsColumns(recs: seq<Record>, ks: seq<int>)
    ensures SumLikes(TotalsFor(recs, ks)) == PerKey(LikeValue, recs, ks)
    ensures SumComments(TotalsFor(recs, ks)) == PerKey(Counted, recs, ks)
  {
    if ks != [] {
      TotalsColumns(recs, ks[1..]);
      assert TotalsFor(recs, ks)[1..] == TotalsFor(recs, ks[1..]);
    }
  }

  /**
   * When every row has a cluster id, the clusters' `total_likes` add up to `df_total_likes`
   * (the sum of all `like_count` values) and their `total_comments` to the number of rows with a
   * like count.
   */
  lemma TotalsAddUp(recs: seq<Record>)
    requires forall i :: 0 <= i < |recs| ==> recs[i].cluster.Some?
    ensures SumLikes(PlotTotals(recs)) == SumAll(LikeValue, recs)
    ensures SumComments(PlotTotals(recs)) == SumAll(Counted, recs)
  {
    var ks := Clusters(recs);
    TotalsColumns(recs, ks);
    PerKeySum(LikeValue, recs, ks);
    PerKeySum(Counted, recs, ks);
    forall i | 0 <= i < |recs| ensures recs[i].cluster.value in KeySet(ks) {
      assert recs[i].cluster == Some(recs[i].cluster.value);
    }
    SumInAll(LikeValue, recs, KeySet(ks));
    SumInAll(Counted, recs, KeySet(ks));
  }

  /** When every row also has a like count, the clusters' `total_comments` add up to `len(df)`. */
  lemma CommentsAddUp(recs: seq<Record>)
    requires forall i :: 0 <= i < |recs| ==> recs[i].cluster.Some? && recs[i].likeCount.Some?
    ensures SumComments(PlotTotals(recs)) == |recs|
  {
    TotalsAddUp(recs);
    CountAll(recs);
  }

  /** `count` counts every row when no like count is missing. */
  lemma {:induction false} CountAll(recs: seq<Record>)
    requires forall i :: 0 <= i < |recs| ==> recs[i].likeCount.Some?
    ensures SumAll(Counted, recs) == |recs|
  {
    if recs != [] {
      assert forall i :: 1 <= i < |recs| ==> recs[1..][i - 1] == recs[i];
      CountAll(recs[1..]);
    }
  }
}
