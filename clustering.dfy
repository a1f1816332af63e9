/**
  The error clustering wrapper (ver_1/app/core/clustering.py, clusterize_errors): one-hot
  encode the error codes, build the feature matrix, let the scaler and KMeans label every
  row, write the labels into the caller's frame and summarise parameter_value per cluster.
*/
module Clustering {
  import opened Wrappers
  import opened Seqs
  import opened ErrorTables

  // ---------------------------------------------------------------- encoding and features

  /** The indicator columns get_dummies creates: the distinct error codes, sorted. */
  function Categories(codes: seq<string>): (cats: seq<string>)
    ensures Increasing(cats, StrLess) && Distinct(cats)
    ensures forall c :: c in cats <==> c in codes
  {
    StrLessIsOrder();
    var cats := SortedDistinct(codes, StrLess);
    IncreasingDistinct(cats, StrLess);
    cats
  }

  /** The indicator cells of one row: 1 in the column of its own code, 0 elsewhere. */
  function Indicators(code: string, cats: seq<string>): (row: seq<real>)
    ensures |row| == |cats|
  {
    seq(|cats|, j requires 0 <= j < |cats| => if cats[j] == code then 1.0 else 0.0)
  }

  /** A row of X: parameter_value followed by the error_code_* indicators. */
  function FeatureRow(value: real, code: string, cats: seq<string>): seq<real> {
    [value] + Indicators(code, cats)
  }

  /** X, the matrix handed to the scaler and KMeans. */
  function FeatureMatrix(values: seq<real>, codes: seq<string>): (x: seq<seq<real>>)
    requires |values| == |codes|
    ensures |x| == |values|
  {
    var cats := Categories(codes);
    seq(|values|, i requires 0 <= i < |values| => FeatureRow(values[i], codes[i], cats))
  }

  /** Every row has exactly one indicator set, in the column of its own code. */
  lemma OneHotExactlyOne(codes: seq<string>, i: nat)
    requires i < |codes|
    ensures var cats, row := Categories(codes), Indicators(codes[i], Categories(codes));
      exists j :: 0 <= j < |row| && cats[j] == codes[i] && row[j] == 1.0 &&
        forall j' :: 0 <= j' < |row| && j' != j ==> row[j'] == 0.0
  {
    var cats := Categories(codes);
    assert codes[i] in cats;
    var j :| 0 <= j < |cats| && cats[j] == codes[i];
    var row := Indicators(codes[i], cats);
    assert row[j] == 1.0;
    forall j' | 0 <= j' < |row| && j' != j ensures row[j'] == 0.0 {
      assert cats[j'] != cats[j];
    }
  }

  /** X has a row per input row, each of 1 + (number of codes) cells, starting with parameter_value. */
  lemma FeatureMatrixShape(values: seq<real>, codes: seq<string>)
    requires |values| == |codes|
    ensures var x, cats := FeatureMatrix(values, codes), Categories(codes);
      && |x| == |values|
      && (forall i :: 0 <= i < |x| ==> |x[i]| == 1 + |cats| && x[i][0] == values[i])
      && (forall i, j :: 0 <= i < |x| && 0 <= j < |cats| ==> (x[i][1 + j] == 1.0 <==> codes[i] == cats[j]))
  {
  }

  // ---------------------------------------------------------------- the model oracle

  /**
    What StandardScaler followed by KMeans(n_clusters = k) guarantees: whenever there are
    at least k >= 1 rows, one label per row, each in [0, k).
  */
  ghost predicate LabelsInRange(model: seq<seq<real>> -> seq<int>, k: int) {
    forall x :: 1 <= k <= |x| ==>
      |model(x)| == |x| && forall i :: 0 <= i < |x| ==> 0 <= model(x)[i] < k
  }

  // ---------------------------------------------------------------- the per-cluster summary

  /** A row of cluster_stats; std is carried as its square, the sample variance (NaN for a single row). */
  datatype ClusterStat = ClusterStat(cluster: int, count: nat, mean: real, variance: Option<real>)

  datatype Labelled = Labelled(cluster: int, value: real)

  function LabelOf(r: Labelled): int { r.cluster }
  function ValueOf(r: Labelled): real { r.value }
  function CountOfStat(s: ClusterStat): int { s.count }

  function Pair(values: seq<real>, labels: seq<int>): (rows: seq<Labelled>)
    requires |values| == |labels|
    ensures |rows| == |values|
  {
    seq(|values|, i requires 0 <= i < |values| => Labelled(labels[i], values[i]))
  }

  /** The parameter values of the rows labelled c. */
  function ClusterValues(rows: seq<Labelled>, c: int): seq<real> {
    Map(Group(rows, LabelOf, c), ValueOf)
  }

  function StatOf(rows: seq<Labelled>, c: int): ClusterStat
    requires |Group(rows, LabelOf, c)| > 0
  {
    var vs := ClusterValues(rows, c);
    ClusterStat(c, |vs|, Mean(vs), if |vs| >= 2 then Some(SampleVariance(vs)) else None)
  }

  lemma LabelGroupNonEmpty(rows: seq<Labelled>, c: int)
    requires c in Map(rows, LabelOf)
    ensures |Group(rows, LabelOf, c)| > 0
  {
  }

  function StatsOver(rows: seq<Labelled>, ls: seq<int>): (stats: seq<ClusterStat>)
    requires forall j :: 0 <= j < |ls| ==> ls[j] in Map(rows, LabelOf)
    ensures |stats| == |ls|
  {
    if ls == [] then []
    else
      var c := ls[|ls| - 1];
      LabelGroupNonEmpty(rows, c);
      StatsOver(rows, ls[..|ls| - 1]) + [StatOf(rows, c)]
  }

  /** The labels that occur, ascending: the group keys of groupby("cluster"). */
  function OccurringLabels(rows: seq<Labelled>): (ls: seq<int>)
    ensures Increasing(ls, IntLess) && Distinct(ls)
    ensures forall c :: c in ls <==> c in Map(rows, LabelOf)
  {
    IntLessIsOrder();
    var ls := SortedDistinct(Map(rows, LabelOf), IntLess);
    IncreasingDistinct(ls, IntLess);
    ls
  }

  /** groupby("cluster")["parameter_value"].agg(["count", "mean", "std"]). */
  function ClusterStats(values: seq<real>, labels: seq<int>): seq<ClusterStat>
    requires |values| == |labels|
  {
    var rows := Pair(values, labels);
    StatsOver(rows, OccurringLabels(rows))
  }

  lemma {:induction false} StatsOverAt(rows: seq<Labelled>, ls: seq<int>, j: nat)
    requires forall j :: 0 <= j < |ls| ==> ls[j] in Map(rows, LabelOf)
    requires j < |ls|
    ensures |Group(rows, LabelOf, ls[j])| > 0
    ensures StatsOver(rows, ls)[j] == StatOf(rows, ls[j])
  {
    LabelGroupNonEmpty(rows, ls[j]);
    if j < |ls| - 1 {
      StatsOverAt(rows, ls[..|ls| - 1], j);
    }
  }

  lemma {:induction false} StatsOverCounts(rows: seq<Labelled>, ls: seq<int>)
    requires forall j :: 0 <= j < |ls| ==> ls[j] in Map(rows, LabelOf)
    ensures SumBy(StatsOver(rows, ls), CountOfStat) == GroupSizes(rows, LabelOf, ls)
  {
    if ls != [] {
      var ls' := ls[..|ls| - 1];
      LabelGroupNonEmpty(rows, ls[|ls| - 1]);
      StatsOverCounts(rows, ls');
      SumBySnoc(StatsOver(rows, ls'), StatOf(rows, ls[|ls| - 1]), CountOfStat);
    }
  }

  /** One summary row per label that occurs, in ascending label order. */
  lemma ClusterStatsLabels(values: seq<real>, labels: seq<int>)
    requires |values| == |labels|
    ensures var stats := ClusterStats(values, labels);
      && (forall j, l :: 0 <= j < l < |stats| ==> stats[j].cluster < stats[l].cluster)
      && (forall j :: 0 <= j < |stats| ==> stats[j].cluster in labels)
      && (forall i :: 0 <= i < |labels| ==> exists j :: 0 <= j < |stats| && stats[j].cluster == labels[i])
  {
    var rows := Pair(values, labels);
    var ls := OccurringLabels(rows);
    var stats := ClusterStats(values, labels);
    assert Map(rows, LabelOf) == labels;
    forall j | 0 <= j < |stats| ensures stats[j].cluster == ls[j] {
      StatsOverAt(rows, ls, j);
    }
    forall i | 0 <= i < |labels| ensures exists j :: 0 <= j < |stats| && stats[j].cluster == labels[i] {
      assert labels[i] in ls;
      var j :| 0 <= j < |ls| && ls[j] == labels[i];
      assert stats[j].cluster == labels[i];
    }
  }

  /**
    Each summary row counts the rows with its label, its mean lies between their smallest
    and largest parameter_value, and its spread is NaN for a single row.
  */
  lemma ClusterStatRow(values: seq<real>, labels: seq<int>, j: nat)
    requires |values| == |labels|
    requires j < |ClusterStats(values, labels)|
    ensures var s, vs := ClusterStats(values, labels)[j], ClusterValues(Pair(values, labels), ClusterStats(values, labels)[j].cluster);
      && |vs| > 0
      && s.count == |vs|
      && (forall v :: v in vs <==> exists i :: 0 <= i < |labels| && labels[i] == s.cluster && values[i] == v)
      && Min(vs) <= s.mean <= Max(vs)
      && (s.variance.None? <==> s.count == 1)
      && (s.variance.Some? ==> s.variance.value >= 0.0)
  {
    var rows := Pair(values, labels);
    var ls := OccurringLabels(rows);
    StatsOverAt(rows, ls, j);
    var c := ls[j];
    var g := Group(rows, LabelOf, c);
    var vs := ClusterValues(rows, c);
    MeanBetween(vs);
    forall v ensures v in vs <==> exists i :: 0 <= i < |labels| && labels[i] == c && values[i] == v {
      if v in vs {
        var k :| 0 <= k < |g| && vs[k] == v;
        assert g[k] in rows;
        var i :| 0 <= i < |rows| && rows[i] == g[k];
        assert labels[i] == c && values[i] == v;
      }
      if exists i :: 0 <= i < |labels| && labels[i] == c && values[i] == v {
        var i :| 0 <= i < |labels| && labels[i] == c && values[i] == v;
        assert rows[i] in g;
        var k :| 0 <= k < |g| && g[k] == rows[i];
        assert vs[k] == v;
      }
    }
  }

  /** The counts add up to the number of labelled rows. */
  lemma ClusterStatsCountTotal(values: seq<real>, labels: seq<int>)
    requires |values| == |labels|
    ensures SumBy(ClusterStats(values, labels), CountOfStat) == |labels|
  {
    var rows := Pair(values, labels);
    var ls := OccurringLabels(rows);
    StatsOverCounts(rows, ls);
    forall r | r in rows ensures LabelOf(r) in ls {
      var k :| 0 <= k < |rows| && rows[k] == r;
      assert Map(rows, LabelOf)[k] == LabelOf(r);
    }
    GroupSizesTotal(rows, LabelOf, ls);
  }

  // ---------------------------------------------------------------- the wrapper

  /** Why clusterize_errors raises instead of returning. */
  datatype ClusterError =
    | MissingColumn(name: string)   // get_dummies or the column selection: KeyError
    | NoRows                        // StandardScaler.fit_transform on an empty matrix: ValueError
    | BadClusterCount               // KMeans with n_clusters < 1
    | TooFewRows                    // KMeans with fewer rows than clusters

  /** The error clusterize_errors raises on a frame, if any, in the order the code meets them. */
  function ClusterFailure(t: ErrorTable, k: int): Option<ClusterError> {
    if t.errorCode.None? then Some(MissingColumn("error_code"))
    else if t.parameterValue.None? then Some(MissingColumn("parameter_value"))
    else if t.rowCount == 0 then Some(NoRows)
    else if k < 1 then Some(BadClusterCount)
    else if t.rowCount < k then Some(TooFewRows)
    else None
  }

  /**
    clusterize_errors(df, n_clusters = k): on success the caller's frame gains the cluster
    column (the labels model gives for X) and nothing else changes; on failure the frame
    is left as it was. The returned frame is the caller's own frame, so it is not returned
    separately; the model object is the oracle itself.
  */
  method ClusterizeErrors(df: ErrorFrame, k: int, model: seq<seq<real>> -> seq<int>)
    returns (result: Result<seq<ClusterStat>, ClusterError>)
    requires df.Valid()
    requires LabelsInRange(model, k)
    modifies df
    ensures df.Valid()
    ensures ClusterFailure(old(df.Contents()), k).Some? ==>
              result == Failure(ClusterFailure(old(df.Contents()), k).value) && df.Contents() == old(df.Contents())
    ensures ClusterFailure(old(df.Contents()), k).None? ==>
              var values, codes := old(df.parameterValue).value, old(df.errorCode).value;
              var labels := model(FeatureMatrix(values, codes));
              && |labels| == df.rowCount
              && (forall i :: 0 <= i < |labels| ==> 0 <= labels[i] < k)
              && df.Contents() == old(df.Contents()).(cluster := Some(labels))
              && result == Success(ClusterStats(values, labels))
  {
    var failure := ClusterFailure(df.Contents(), k);
    if failure.Some? {
      return Failure(failure.value);
    }
    var codes := df.errorCode.value;
    var values := df.parameterValue.value;
    var x := FeatureMatrix(values, codes);
    var labels := model(x);
    df.cluster := Some(labels);
    result := Success(ClusterStats(values, labels));
  }
}
