/**
  The data preparation behind the error charts (vizualization/ver_1/app/visual/charts.py):
  the export date column, the errors-per-day series with its "last N days" cut, the top error
  codes, the scatter axes and the box plot's default column. The figures themselves are not
  modelled; each function returns the data its figure is drawn from.
*/
module Charts {
  import opened Wrappers
  import opened Seqs
  import opened Calendar
  import opened ErrorTables

  // ---------------------------------------------------------------- export dates

  /** The date of a cell once to_datetime(...).dt.date has run: NaT for a blank or unparseable cell. */
  function CellDate(c: ExportCell): Option<int> {
    match c
    case Stamp(m) => Some(DayOf(m))
    case Blank => None
    case Garbled => None
  }

  /** Whether to_datetime parses the column without raising: blank cells are accepted as NaT. */
  predicate Parses(cells: seq<ExportCell>) {
    forall i :: 0 <= i < |cells| ==> !cells[i].Garbled?
  }

  /**
    ensure_export_time_date: the export_time column of the copy it returns. Without the
    column every row gets 2025-01-01. Otherwise every cell is truncated to its date; when
    to_datetime raises, the errors='coerce' retry turns the unparseable cells into NaT, so
    both paths give the date of each parseable cell and NaT for the rest. The input table
    is a value, so the caller's frame is not changed.
  */
  function EnsureExportTimeDate(t: ErrorTable): (dates: seq<Option<int>>)
    requires WellFormed(t)
    ensures |dates| == t.rowCount
    ensures t.exportTime.None? ==> forall i :: 0 <= i < |dates| ==> dates[i] == Some(Jan1st2025)
    ensures t.exportTime.Some? ==> forall i :: 0 <= i < |dates| ==>
              (dates[i].Some? <==> t.exportTime.value[i].Stamp?) &&
              (dates[i].Some? ==> dates[i].value == DayOf(t.exportTime.value[i].minutes))
  {
    match t.exportTime
    case None => seq(t.rowCount, i => Some(Jan1st2025))
    case Some(cells) => Map(cells, CellDate)
  }

  // ---------------------------------------------------------------- errors per day

  datatype DayCount = DayCount(date: int, count: nat)

  function CountOfDay(c: DayCount): int { c.count }
  function DateOfDay(c: DayCount): int { c.date }

  /** The dates that are not NaT: groupby drops the NaT keys. */
  function PresentDates(dates: seq<Option<int>>): (ds: seq<int>)
    ensures |ds| <= |dates|
    ensures forall d :: d in ds <==> Some(d) in dates
  {
    if dates == [] then []
    else
      var ds := PresentDates(dates[..|dates| - 1]);
      assert dates == dates[..|dates| - 1] + [dates[|dates| - 1]];
      match dates[|dates| - 1]
      case Some(d) => ds + [d]
      case None => ds
  }

  lemma {:induction false} PresentDatesCount(dates: seq<Option<int>>, d: int)
    ensures Count(PresentDates(dates), d) == Count(dates, Some(d))
  {
    if dates != [] {
      var prefix, last := dates[..|dates| - 1], dates[|dates| - 1];
      assert dates == prefix + [last];
      PresentDatesCount(prefix, d);
      CountSnoc(prefix, last, Some(d));
      if last.Some? {
        CountSnoc(PresentDates(prefix), last.value, d);
      }
    }
  }

  /** Without NaT cells every row keeps its date. */
  lemma {:induction false} PresentDatesAll(dates: seq<Option<int>>)
    requires forall i :: 0 <= i < |dates| ==> dates[i].Some?
    ensures |PresentDates(dates)| == |dates|
  {
    if dates != [] {
      PresentDatesAll(dates[..|dates| - 1]);
    }
  }

  function CountsOver(present: seq<int>, ks: seq<int>): (agg: seq<DayCount>)
    ensures |agg| == |ks|
    ensures forall i :: 0 <= i < |ks| ==> agg[i] == DayCount(ks[i], Count(present, ks[i]))
  {
    if ks == [] then [] else CountsOver(present, ks[..|ks| - 1]) + [DayCount(ks[|ks| - 1], Count(present, ks[|ks| - 1]))]
  }

  lemma {:induction false} CountsOverSum(present: seq<int>, ks: seq<int>)
    ensures SumBy(CountsOver(present, ks), CountOfDay) == GroupSizes(present, Id, ks)
  {
    if ks != [] {
      var ks', k := ks[..|ks| - 1], ks[|ks| - 1];
      CountsOverSum(present, ks');
      SumBySnoc(CountsOver(present, ks'), DayCount(k, Count(present, k)), CountOfDay);
      CountIsGroupSize(present, k);
    }
  }

  /** groupby('export_time').size(): one count per date, in ascending date order. */
  function CountsPerDate(dates: seq<Option<int>>): seq<DayCount> {
    var present := PresentDates(dates);
    IntLessIsOrder();
    CountsOver(present, SortedDistinct(present, IntLess))
  }

  /** DataFrame.tail(n): the last n rows, or for a negative n every row but the first -n. */
  function Tail<T>(s: seq<T>, n: int): seq<T> {
    if n >= 0 then s[if n <= |s| then |s| - n else 0..]
    else s[if -n <= |s| then -n else |s|..]
  }

  /**
    fig_errors_by_day(df, days): the bars. A positive days keeps the latest days dates (all
    of them when there are fewer), in ascending order, and every date it drops is earlier
    than every date it keeps; a negative days drops the earliest -days dates; None or 0
    keeps them all.
  */
  function ErrorsByDay(t: ErrorTable, days: Option<int>): (shown: seq<DayCount>)
    requires WellFormed(t)
    ensures var all := CountsPerDate(EnsureExportTimeDate(t));
      && (days.None? || days == Some(0) ==> shown == all)
      && (days.Some? && days.value > 0 ==> |shown| == (if days.value <= |all| then days.value else |all|))
      && (days.Some? && days.value < 0 ==> |shown| == (if -days.value <= |all| then |all| + days.value else 0))
      && shown == all[|all| - |shown|..]
      && AscendingDates(shown)
      && DropsOnlyEarlier(all, |shown|)
  {
    var all := CountsPerDate(EnsureExportTimeDate(t));
    CountsPerDateAscending(EnsureExportTimeDate(t));
    LastDaysCut(all, days);
    LastDays(all, days)
  }

  /** The bars the days argument keeps: tail(days), or every bar for None or 0. */
  function LastDays(agg: seq<DayCount>, days: Option<int>): seq<DayCount> {
    if days.Some? && days.value != 0 then Tail(agg, days.value) else agg
  }

  /**
    One bar per distinct date, in ascending order, each counting the rows of that date;
    the bars add up to the rows whose export_time is a date.
  */
  lemma CountsPerDateFacts(dates: seq<Option<int>>)
    ensures var agg := CountsPerDate(dates);
      && (forall i, j :: 0 <= i < j < |agg| ==> agg[i].date < agg[j].date)
      && (forall i :: 0 <= i < |agg| ==> Some(agg[i].date) in dates && agg[i].count == Count(dates, Some(agg[i].date)))
      && (forall k :: 0 <= k < |dates| && dates[k].Some? ==> exists i :: 0 <= i < |agg| && agg[i].date == dates[k].value)
      && SumBy(agg, CountOfDay) == |PresentDates(dates)|
  {
    var present := PresentDates(dates);
    IntLessIsOrder();
    var ks := SortedDistinct(present, IntLess);
    IncreasingDistinct(ks, IntLess);
    var agg := CountsPerDate(dates);
    forall i | 0 <= i < |agg| ensures Some(agg[i].date) in dates && agg[i].count == Count(dates, Some(agg[i].date)) {
      assert ks[i] in ks;
      PresentDatesCount(dates, ks[i]);
    }
    forall k | 0 <= k < |dates| && dates[k].Some? ensures exists i :: 0 <= i < |agg| && agg[i].date == dates[k].value {
      var d := dates[k].value;
      assert dates[k] in dates;
      assert d in ks;
      var i :| 0 <= i < |ks| && ks[i] == d;
      assert agg[i].date == d;
    }
    CountsOverSum(present, ks);
    forall x | x in present ensures Id(x) in ks {
    }
    GroupSizesTotal(present, Id, ks);
  }

  /** Without an export_time column all rows fall on 2025-01-01: a single bar counting every row. */
  lemma ErrorsByDayWithoutColumn(t: ErrorTable)
    requires WellFormed(t) && t.exportTime.None? && t.rowCount > 0
    ensures ErrorsByDay(t, None) == [DayCount(Jan1st2025, t.rowCount)]
  {
    var dates := EnsureExportTimeDate(t);
    var present := PresentDates(dates);
    PresentDatesConstant(dates, Jan1st2025);
    IntLessIsOrder();
    var ks := SortedDistinct(present, IntLess);
    assert present[0] in ks;
    forall i | 0 <= i < |ks| ensures ks[i] == Jan1st2025 {
      assert ks[i] in present;
    }
    IncreasingConstant(ks, IntLess, Jan1st2025);
    CountConstant(present, Jan1st2025);
  }

  /** When every row falls on date d, the dated rows are all the rows, each on d. */
  lemma {:induction false} PresentDatesConstant(dates: seq<Option<int>>, d: int)
    requires forall i :: 0 <= i < |dates| ==> dates[i] == Some(d)
    ensures |PresentDates(dates)| == |dates|
    ensures forall i :: 0 <= i < |dates| ==> PresentDates(dates)[i] == d
  {
    if dates != [] {
      PresentDatesConstant(dates[..|dates| - 1], d);
    }
  }

  lemma {:induction false} CountConstant(s: seq<int>, x: int)
    requires forall i :: 0 <= i < |s| ==> s[i] == x
    ensures Count(s, x) == |s|
  {
    if s != [] {
      CountConstant(s[..|s| - 1], x);
    }
  }

  /** tail(n) is a suffix, of length n for 0 <= n <= |s| and of length |s| + n for -|s| <= n < 0. */
  lemma TailFacts<T>(s: seq<T>, n: int)
    ensures |Tail(s, n)| == (if n >= 0 then (if n <= |s| then n else |s|) else (if -n <= |s| then |s| + n else 0))
    ensures Tail(s, n) == s[|s| - |Tail(s, n)|..]
  {
  }

  predicate AscendingDates(agg: seq<DayCount>) {
    forall i, j :: 0 <= i < j < |agg| ==> agg[i].date < agg[j].date
  }

  lemma CountsPerDateAscending(dates: seq<Option<int>>)
    ensures AscendingDates(CountsPerDate(dates))
  {
  }

  /** A suffix of ascending bars is ascending, and what it leaves out comes before what it keeps. */
  lemma TailAscending(all: seq<DayCount>, n: int)
    requires AscendingDates(all)
    ensures AscendingDates(Tail(all, n))
    ensures forall i, j :: 0 <= i < |all| - |Tail(all, n)| <= j < |all| ==> all[i].date < all[j].date
  {
  }

  /** Every bar outside the last k comes before every bar among them. */
  predicate DropsOnlyEarlier(all: seq<DayCount>, k: int) {
    forall i, j :: 0 <= i < |all| - k <= j < |all| ==> all[i].date < all[j].date
  }

  /** The cut of ascending bars: a suffix of the requested length, dropping only earlier dates. */
  lemma LastDaysCut(all: seq<DayCount>, days: Option<int>)
    requires AscendingDates(all)
    ensures var shown := LastDays(all, days);
      && (days.None? || days == Some(0) ==> shown == all)
      && (days.Some? && days.value > 0 ==> |shown| == (if days.value <= |all| then days.value else |all|))
      && (days.Some? && days.value < 0 ==> |shown| == (if -days.value <= |all| then |all| + days.value else 0))
      && shown == all[|all| - |shown|..]
      && AscendingDates(shown)
      && DropsOnlyEarlier(all, |shown|)
  {
  }

  // ---------------------------------------------------------------- top error codes

  datatype CodeCount = CodeCount(code: string, count: nat)

  /** The distinct values of s in the order they first occur. */
  function FirstOccurrences(s: seq<string>): (u: seq<string>)
    ensures Distinct(u)
    ensures forall x :: x in u <==> x in s
  {
    if s == [] then []
    else
      var u := FirstOccurrences(s[..|s| - 1]);
      assert s == s[..|s| - 1] + [s[|s| - 1]];
      if s[|s| - 1] in u then u else u + [s[|s| - 1]]
  }

  predicate NonIncreasing(s: seq<CodeCount>) {
    forall i, j :: 0 <= i < j < |s| ==> s[i].count >= s[j].count
  }

  /** Puts x after every entry whose count is at least x's (a stable insertion). */
  function InsertByCount(x: CodeCount, s: seq<CodeCount>): (r: seq<CodeCount>)
    requires NonIncreasing(s)
    ensures NonIncreasing(r)
    ensures |r| == |s| + 1
    ensures forall y :: y in r <==> y == x || y in s
  {
    if s == [] then [x]
    else if s[0].count >= x.count then
      var rest := InsertByCount(x, s[1..]);
      assert forall y :: y in s[1..] ==> y in s;
      assert forall y :: y in rest ==> s[0].count >= y.count;
      [s[0]] + rest
    else [x] + s
  }

  /** A sequence with no repeats stays so when a new value is put in front of it. */
  lemma DistinctCons<T>(x: T, s: seq<T>)
    requires x !in s && Distinct(s)
    ensures Distinct([x] + s)
  {
  }

  lemma {:induction false} InsertByCountDistinct(x: CodeCount, s: seq<CodeCount>)
    requires NonIncreasing(s) && Distinct(s) && x !in s
    ensures Distinct(InsertByCount(x, s))
  {
    if s != [] {
      if s[0].count >= x.count {
        assert s == [s[0]] + s[1..];
        InsertByCountDistinct(x, s[1..]);
        DistinctCons(s[0], InsertByCount(x, s[1..]));
      } else {
        DistinctCons(x, s);
      }
    }
  }

  /** A stable sort by descending count. */
  function SortByCount(s: seq<CodeCount>): (r: seq<CodeCount>)
    ensures NonIncreasing(r)
    ensures |r| == |s|
    ensures forall y :: y in r <==> y in s
  {
    if s == [] then []
    else
      var prefix := s[..|s| - 1];
      assert s == prefix + [s[|s| - 1]];
      InsertByCount(s[|s| - 1], SortByCount(prefix))
  }

  lemma {:induction false} SortByCountDistinct(s: seq<CodeCount>)
    requires Distinct(s)
    ensures Distinct(SortByCount(s))
  {
    if s != [] {
      var prefix := s[..|s| - 1];
      assert s == prefix + [s[|s| - 1]];
      SortByCountDistinct(prefix);
      InsertByCountDistinct(s[|s| - 1], SortByCount(prefix));
    }
  }

  /** value_counts(): one entry per distinct code with its number of rows, most frequent first. */
  function ValueCounts(codes: seq<string>): seq<CodeCount> {
    var u := FirstOccurrences(codes);
    SortByCount(seq(|u|, i requires 0 <= i < |u| => CodeCount(u[i], Count(codes, u[i]))))
  }

  /** DataFrame.head(n): the first n rows, or for a negative n every row but the last -n. */
  function Head<T>(s: seq<T>, n: int): seq<T> {
    if n >= 0 then s[..if n <= |s| then n else |s|]
    else s[..if -n <= |s| then |s| + n else 0]
  }

  /** fig_error_code_distribution(df, top_n): None is the empty "no data" figure. */
  function ErrorCodeDistribution(t: ErrorTable, topN: int): (r: Option<seq<CodeCount>>)
    ensures r.None? <==> t.errorCode.None?
  {
    match t.errorCode
    case None => None
    case Some(codes) => Some(Head(ValueCounts(codes), topN))
  }

  /** Every code appears once in value_counts(), with its number of rows, most frequent first. */
  lemma ValueCountsFacts(codes: seq<string>)
    ensures var vc := ValueCounts(codes);
      && NonIncreasing(vc)
      && (forall i :: 0 <= i < |vc| ==> vc[i].count == Count(codes, vc[i].code) >= 1)
      && (forall c :: c in codes <==> exists i :: 0 <= i < |vc| && vc[i].code == c)
      && (forall i, j :: 0 <= i < j < |vc| ==> vc[i].code != vc[j].code)
  {
    var u := FirstOccurrences(codes);
    var entries := seq(|u|, i requires 0 <= i < |u| => CodeCount(u[i], Count(codes, u[i])));
    var vc := ValueCounts(codes);
    assert Distinct(entries) by {
      forall i, j | 0 <= i < j < |entries| ensures entries[i] != entries[j] {
        assert entries[i].code == u[i] && entries[j].code == u[j];
      }
    }
    SortByCountDistinct(entries);
    forall i | 0 <= i < |vc| ensures vc[i].count == Count(codes, vc[i].code) >= 1 {
      assert vc[i] in entries;
      var k :| 0 <= k < |entries| && entries[k] == vc[i];
      assert u[k] in u;
    }
    forall c | c in codes ensures exists i :: 0 <= i < |vc| && vc[i].code == c {
      assert c in u;
      var k :| 0 <= k < |u| && u[k] == c;
      assert entries[k] in vc;
    }
    forall i, j | 0 <= i < j < |vc| ensures vc[i].code != vc[j].code {
      assert vc[i] != vc[j];
    }
  }

  /**
    With top_n >= 0 the distribution keeps the top_n most frequent codes (all when there
    are fewer): a prefix of value_counts(), and no code left out is more frequent than a
    code kept.
  */
  lemma TopCodes(t: ErrorTable, topN: int)
    requires t.errorCode.Some? && topN >= 0
    ensures var codes, vc := t.errorCode.value, ValueCounts(t.errorCode.value);
      var shown := ErrorCodeDistribution(t, topN).value;
      && |shown| == (if topN <= |vc| then topN else |vc|)
      && shown == vc[..|shown|]
      && (forall i, j :: 0 <= i < |shown| <= j < |vc| ==> vc[j].count <= shown[i].count)
  {
  }

  // ---------------------------------------------------------------- the scatter plot

  /** The x axis: parsed timestamps (NaT as None), or the row positions 0 .. n - 1. */
  datatype XAxis = Times(stamps: seq<Option<int>>) | Positions(index: seq<nat>)

  datatype ScatterData = ScatterData(x: XAxis, y: seq<real>, color: Option<seq<int>>, hover: seq<string>)

  function CellStamp(c: ExportCell): Option<int> {
    match c
    case Stamp(m) => Some(m)
    case Blank => None
    case Garbled => None
  }

  function Range(n: nat): (r: seq<nat>)
    ensures |r| == n && forall i :: 0 <= i < n ==> r[i] == i
  {
    seq(n, i => i)
  }

  /**
    fig_scatter_clusters: the points of the scatter. It fails without an error_code column,
    which the hover data names.
  */
  function ScatterClusters(t: ErrorTable): Result<ScatterData, string>
    requires WellFormed(t)
  {
    var y := if t.parameterValue.Some? then t.parameterValue.value else Zeros(t.rowCount);
    var x := if t.exportTime.Some? && Parses(t.exportTime.value) then Times(Map(t.exportTime.value, CellStamp))
             else Positions(Range(t.rowCount));
    if t.errorCode.None? then Failure("error_code")
    else Success(ScatterData(x, y, t.cluster, t.errorCode.value))
  }

  /**
    There is one point per row. The x axis is the parsed export_time when the column exists
    and parses, otherwise the row positions 0 .. n - 1; y is parameter_value, or 0 without
    that column; points are coloured by cluster when the column exists.
  */
  lemma ScatterFacts(t: ErrorTable)
    requires WellFormed(t)
    ensures ScatterClusters(t).Success? <==> t.errorCode.Some?
    ensures ScatterClusters(t).Success? ==>
      var s := ScatterClusters(t).value;
      && |s.y| == t.rowCount
      && (t.parameterValue.None? ==> forall i :: 0 <= i < |s.y| ==> s.y[i] == 0.0)
      && (t.parameterValue.Some? ==> s.y == t.parameterValue.value)
      && (s.x.Positions? <==> t.exportTime.None? || exists i :: 0 <= i < t.rowCount && t.exportTime.value[i].Garbled?)
      && (s.x.Positions? ==> s.x.index == Range(t.rowCount))
      && (s.x.Times? ==>
            |s.x.stamps| == t.rowCount &&
            (forall i :: 0 <= i < t.rowCount ==>
               (s.x.stamps[i].Some? <==> t.exportTime.value[i].Stamp?) &&
               (t.exportTime.value[i].Stamp? ==> s.x.stamps[i] == Some(t.exportTime.value[i].minutes))))
      && s.color == t.cluster
  {
  }

  // ---------------------------------------------------------------- the box plot

  /** The box plot's data: parameter_value against cluster. */
  datatype BoxData = BoxData(x: seq<int>, y: seq<real>)

  /**
    fig_box_by_cluster: without a cluster column there is nothing to plot ("clusters not
    found") and the frame is untouched; otherwise a missing parameter_value is written into
    the caller's frame as a column of zeros before the boxes are drawn.
  */
  method BoxByCluster(df: ErrorFrame) returns (fig: Option<BoxData>)
    requires df.Valid()
    modifies df
    ensures df.Valid()
    ensures old(df.cluster).None? ==> fig.None? && df.Contents() == old(df.Contents())
    ensures old(df.cluster).Some? ==>
              && df.Contents() == old(df.Contents()).(parameterValue := Some(old(df.parameterValue).GetOr(Zeros(df.rowCount))))
              && fig == Some(BoxData(df.cluster.value, df.parameterValue.value))
  {
    if df.cluster.None? {
      return None;
    }
    if df.parameterValue.None? {
      df.parameterValue := Some(Zeros(df.rowCount));
    }
    fig := Some(BoxData(df.cluster.value, df.parameterValue.value));
  }
}
