/**
  The analytics dashboard (vizualization/app3.py): the Session record, the deterministic
  part of the session generator, and the aggregations its charts, metric cards and
  comparison table show.
*/
module Dashboard {
  import opened Wrappers
  import opened Seqs
  import opened Calendar

  // ---------------------------------------------------------------- sessions

  /** The text id "{date}_{n}", kept as its two parts. */
  datatype SessionId = SessionId(date: int, serial: nat)

  /** One session; dates are day numbers. */
  datatype Session = Session(
    sessionId: SessionId,
    date: int,
    durationMin: real,
    totalSignals: int,
    signalsPerMinute: real,
    discreteRatio: real,
    analogRatio: real,
    avgDiscreteActive: real,
    uniqueDiscrete: int,
    avgAnalogAbs: real,
    maxAnalog: real,
    stdAnalog: real,
    totalUniqueSignals: int,
    rareSignalRatio: real,
    cluster: int)

  const Stable := 0
  const Noisy := 1
  const Anomalous := 2

  function ClusterName(c: int): string {
    if c == Stable then "Stable" else if c == Noisy then "Noisy" else "Anomalous"
  }

  function DateOfSession(s: Session): int { s.date }
  function ClusterOfSession(s: Session): int { s.cluster }
  function RateOfSession(s: Session): real { s.signalsPerMinute }
  function DurationOfSession(s: Session): real { s.durationMin }
  function MaxAnalogOfSession(s: Session): real { s.maxAnalog }
  function UniqueOfSession(s: Session): real { s.totalUniqueSignals as real }
  predicate IsStable(s: Session) { s.cluster == Stable }

  // ---------------------------------------------------------------- the generator

  /**
    The random numbers one session consumes, in the order the generator draws them: the
    cluster, the three normal draws of its cluster, then the uniform and integer draws.
    absFactor and stdFactor are the factors max_analog is multiplied by.
  */
  datatype SessionDraw = SessionDraw(
    cluster: int,
    duration: real,
    signals: real,
    maxAnalog: real,
    discreteRatio: real,
    analogRatio: real,
    avgDiscreteActive: real,
    uniqueDiscrete: int,
    absFactor: real,
    stdFactor: real,
    totalUniqueSignals: int,
    rareSignalRatio: real)

  /** What numpy guarantees of the draws: 3 to 7 sessions a day, and each cluster one of 0, 1, 2. */
  predicate DrawsInRange(draws: seq<seq<SessionDraw>>) {
    forall k :: 0 <= k < |draws| ==>
      3 <= |draws[k]| <= 7 &&
      forall j :: 0 <= j < |draws[k]| ==> 0 <= draws[k][j].cluster <= 2
  }

  /** Python's int() on a float: truncation toward zero. */
  function Trunc(x: real): int {
    if x >= 0.0 then x.Floor else -((-x).Floor)
  }

  /** The date of day offset k: today minus (days - k) days. */
  function DateOfOffset(today: int, days: int, k: int): int {
    today - (days - k)
  }

  /** The session built from one draw: the duration is raised to 5 minutes and the signal count to 10. */
  function MakeSession(date: int, serial: nat, d: SessionDraw): Session {
    var duration := if d.duration > 5.0 then d.duration else 5.0;
    var drawn := Trunc(d.signals);
    var signals := if drawn > 10 then drawn else 10;
    Session(
      SessionId(date, serial),
      date,
      duration,
      signals,
      signals as real / duration,
      d.discreteRatio,
      d.analogRatio,
      d.avgDiscreteActive,
      d.uniqueDiscrete,
      d.maxAnalog * d.absFactor,
      d.maxAnalog,
      d.maxAnalog * d.stdFactor,
      d.totalUniqueSignals,
      d.rareSignalRatio,
      d.cluster)
  }

  /** The sessions of one day, numbered from first on. */
  function DaySessions(date: int, first: nat, ds: seq<SessionDraw>): (r: seq<Session>)
    ensures |r| == |ds|
  {
    seq(|ds|, j requires 0 <= j < |ds| => MakeSession(date, first + j, ds[j]))
  }

  /** The sessions of the first d days. */
  function Generated(today: int, days: int, draws: seq<seq<SessionDraw>>, d: nat): seq<Session>
    requires d <= |draws|
  {
    if d == 0 then []
    else
      var prev := Generated(today, days, draws, d - 1);
      prev + DaySessions(DateOfOffset(today, days, d - 1), |prev| + 1, draws[d - 1])
  }

  /**
    generate_sessions(days): today is the date datetime.now() gives, and draws[k] holds the
    draws of day offset k, one per session of that day.
  */
  method GenerateSessions(days: int, today: int, draws: seq<seq<SessionDraw>>) returns (sessions: seq<Session>)
    requires |draws| == (if days > 0 then days else 0)
    ensures sessions == Generated(today, days, draws, |draws|)
  {
    sessions := [];
    var sessionCount: nat := 0;
    for dayOffset := 0 to |draws|
      invariant sessions == Generated(today, days, draws, dayOffset)
      invariant sessionCount == |sessions|
    {
      var date := DateOfOffset(today, days, dayOffset);
      var dailySessions := draws[dayOffset];
      var before := sessions;
      for j := 0 to |dailySessions|
        invariant sessions == before + DaySessions(date, |before| + 1, dailySessions[..j])
        invariant sessionCount == |before| + j
      {
        sessionCount := sessionCount + 1;
        var session := MakeSession(date, sessionCount, dailySessions[j]);
        assert DaySessions(date, |before| + 1, dailySessions[..j + 1]) ==
               DaySessions(date, |before| + 1, dailySessions[..j]) + [session];
        sessions := sessions + [session];
      }
      assert dailySessions[..|dailySessions|] == dailySessions;
    }
  }

  /** The first d - 1 days come first, then the sessions of day d - 1, numbered on from the counter. */
  lemma GeneratedLastDay(today: int, days: int, draws: seq<seq<SessionDraw>>, d: nat)
    requires 0 < d <= |draws|
    ensures var prev, g := Generated(today, days, draws, d - 1), Generated(today, days, draws, d);
      && |g| == |prev| + |draws[d - 1]|
      && (forall i :: 0 <= i < |prev| ==> g[i] == prev[i])
      && (forall i :: |prev| <= i < |g| ==>
            g[i] == MakeSession(DateOfOffset(today, days, d - 1), i + 1, draws[d - 1][i - |prev|]))
  {
    var prev, g := Generated(today, days, draws, d - 1), Generated(today, days, draws, d);
    var day := DaySessions(DateOfOffset(today, days, d - 1), |prev| + 1, draws[d - 1]);
    assert g == prev + day;
    forall i | |prev| <= i < |g|
      ensures g[i] == MakeSession(DateOfOffset(today, days, d - 1), i + 1, draws[d - 1][i - |prev|])
    {
      assert g[i] == day[i - |prev|];
    }
  }

  /** Between 3 and 7 sessions a day. */
  lemma {:induction false} GeneratedCount(today: int, days: int, draws: seq<seq<SessionDraw>>, d: nat)
    requires d <= |draws| && DrawsInRange(draws)
    ensures 3 * d <= |Generated(today, days, draws, d)| <= 7 * d
  {
    if d > 0 {
      GeneratedCount(today, days, draws, d - 1);
    }
  }

  /** The counter numbers the sessions 1, 2, 3, ... in order. */
  lemma {:induction false} GeneratedSerials(today: int, days: int, draws: seq<seq<SessionDraw>>, d: nat)
    requires d <= |draws|
    ensures var g := Generated(today, days, draws, d);
      forall i :: 0 <= i < |g| ==> g[i].sessionId.serial == i + 1
  {
    if d > 0 {
      GeneratedSerials(today, days, draws, d - 1);
      GeneratedLastDay(today, days, draws, d);
    }
  }

  /** So no two sessions share an id. */
  lemma GeneratedIdsUnique(today: int, days: int, draws: seq<seq<SessionDraw>>, d: nat)
    requires d <= |draws|
    ensures var g := Generated(today, days, draws, d);
      forall i, j :: 0 <= i < j < |g| ==> g[i].sessionId != g[j].sessionId
  {
    GeneratedSerials(today, days, draws, d);
  }

  /**
    Every session's id carries its date; the dates run from days before today up to the
    day before today and never go back.
  */
  lemma {:induction false} GeneratedDates(today: int, days: int, draws: seq<seq<SessionDraw>>, d: nat)
    requires d <= |draws|
    ensures var g := Generated(today, days, draws, d);
      && (forall i :: 0 <= i < |g| ==>
            g[i].sessionId.date == g[i].date && today - days <= g[i].date < today - days + d)
      && (forall i, j :: 0 <= i <= j < |g| ==> g[i].date <= g[j].date)
  {
    if d > 0 {
      GeneratedDates(today, days, draws, d - 1);
      GeneratedLastDay(today, days, draws, d);
    }
  }

  /** A session from any draw lasts at least 5 minutes, has at least 10 signals and its rate is signals over minutes. */
  lemma MakeSessionFacts(date: int, serial: nat, d: SessionDraw)
    ensures var s := MakeSession(date, serial, d);
      && s.durationMin >= 5.0
      && s.totalSignals >= 10
      && s.signalsPerMinute == s.totalSignals as real / s.durationMin
      && s.cluster == d.cluster
      && s.sessionId == SessionId(date, serial)
  {
  }

  /** Every generated session lasts at least 5 minutes, has at least 10 signals, its rate is signals over minutes and its cluster is 0, 1 or 2. */
  lemma {:induction false} GeneratedSessionFacts(today: int, days: int, draws: seq<seq<SessionDraw>>, d: nat)
    requires d <= |draws| && DrawsInRange(draws)
    ensures var g := Generated(today, days, draws, d);
      forall i :: 0 <= i < |g| ==>
        && g[i].durationMin >= 5.0
        && g[i].totalSignals >= 10
        && g[i].signalsPerMinute == g[i].totalSignals as real / g[i].durationMin
        && 0 <= g[i].cluster <= 2
  {
    if d > 0 {
      GeneratedSessionFacts(today, days, draws, d - 1);
      GeneratedLastDay(today, days, draws, d);
      var prev, g := Generated(today, days, draws, d - 1), Generated(today, days, draws, d);
      forall i | |prev| <= i < |g| ensures 0 <= g[i].cluster <= 2 {
        assert g[i].cluster == draws[d - 1][i - |prev|].cluster;
      }
    }
  }

  // ---------------------------------------------------------------- stability over time

  datatype DayPercent = DayPercent(date: int, stabilityPercent: real)

  /** The share of stable sessions in a group, in percent. */
  function StabilityPercent(group: seq<Session>): real {
    Ratio(CountIf(group, IsStable), |group|) * 100.0
  }

  lemma StabilityBounds(group: seq<Session>)
    requires |group| > 0
    ensures 0.0 <= StabilityPercent(group) <= 100.0
    ensures StabilityPercent(group) == CountIf(group, IsStable) as real / |group| as real * 100.0
  {
  }

  function SessionDates(sessions: seq<Session>): (ds: seq<int>)
    ensures Increasing(ds, IntLess) && Distinct(ds)
    ensures forall d :: d in ds <==> d in Map(sessions, DateOfSession)
  {
    IntLessIsOrder();
    var ds := SortedDistinct(Map(sessions, DateOfSession), IntLess);
    IncreasingDistinct(ds, IntLess);
    ds
  }

  lemma GroupOfPresentKey(sessions: seq<Session>, key: Session -> int, k: int)
    requires k in Map(sessions, key)
    ensures |Group(sessions, key, k)| > 0
  {
  }

  /**
    daily_stability_line: per date, 100 * (stable sessions) / (sessions that date). A
    frame built from no sessions has no date column, so pandas raises (None).
  */
  function DailyStability(sessions: seq<Session>): (r: Option<seq<DayPercent>>)
    ensures r.None? <==> sessions == []
  {
    if sessions == [] then None
    else
      var ds := SessionDates(sessions);
      Some(seq(|ds|, i requires 0 <= i < |ds| => DayPercent(ds[i], StabilityPercent(Group(sessions, DateOfSession, ds[i])))))
  }

  /**
    One value per distinct date, in ascending order, each the stable share of that date's
    sessions in percent, so in [0, 100].
  */
  lemma DailyStabilityFacts(sessions: seq<Session>)
    requires sessions != []
    ensures var r := DailyStability(sessions).value;
      && (forall i, j :: 0 <= i < j < |r| ==> r[i].date < r[j].date)
      && (forall k :: 0 <= k < |sessions| ==> exists i :: 0 <= i < |r| && r[i].date == sessions[k].date)
      && (forall i :: 0 <= i < |r| ==>
            var group := Group(sessions, DateOfSession, r[i].date);
            && |group| > 0
            && r[i].date in Map(sessions, DateOfSession)
            && r[i].stabilityPercent == CountIf(group, IsStable) as real / |group| as real * 100.0
            && 0.0 <= r[i].stabilityPercent <= 100.0)
  {
    var ds := SessionDates(sessions);
    var r := DailyStability(sessions).value;
    forall k | 0 <= k < |sessions| ensures exists i :: 0 <= i < |r| && r[i].date == sessions[k].date {
      assert Map(sessions, DateOfSession)[k] == sessions[k].date;
      assert sessions[k].date in ds;
      var i :| 0 <= i < |ds| && ds[i] == sessions[k].date;
      assert r[i].date == sessions[k].date;
    }
    forall i | 0 <= i < |r| ensures
      var group := Group(sessions, DateOfSession, r[i].date);
      && |group| > 0
      && r[i].date in Map(sessions, DateOfSession)
      && r[i].stabilityPercent == CountIf(group, IsStable) as real / |group| as real * 100.0
      && 0.0 <= r[i].stabilityPercent <= 100.0
    {
      assert ds[i] in ds;
      GroupOfPresentKey(sessions, DateOfSession, ds[i]);
      StabilityBounds(Group(sessions, DateOfSession, ds[i]));
    }
  }

  datatype MonthRow = MonthRow(month: int, stabilityPercent: real, avgSignalsPerMin: real)

  function MonthOfSession(s: Session): int { MonthOf(s.date) }

  function SessionMonths(sessions: seq<Session>): (ms: seq<int>)
    ensures Increasing(ms, IntLess) && Distinct(ms)
    ensures forall m :: m in ms <==> m in Map(sessions, MonthOfSession)
  {
    IntLessIsOrder();
    var ms := SortedDistinct(Map(sessions, MonthOfSession), IntLess);
    IncreasingDistinct(ms, IntLess);
    ms
  }

  function MonthRowOf(sessions: seq<Session>, m: int): MonthRow
    requires m in Map(sessions, MonthOfSession)
  {
    var group := Group(sessions, MonthOfSession, m);
    GroupOfPresentKey(sessions, MonthOfSession, m);
    MonthRow(m, StabilityPercent(group), Mean(Map(group, RateOfSession)))
  }

  /** monthly_summary: per year-month, the stable share in percent and the mean rate (None without sessions, as above). */
  function MonthlySummary(sessions: seq<Session>): (r: Option<seq<MonthRow>>)
    ensures r.None? <==> sessions == []
  {
    if sessions == [] then None
    else
      var ms := SessionMonths(sessions);
      Some(seq(|ms|, i requires 0 <= i < |ms| => MonthRowOf(sessions, ms[i])))
  }

  /**
    One row per year-month with sessions, in ascending order; each stability percent lies
    in [0, 100] and each month's mean rate between its slowest and fastest session's.
  */
  lemma MonthlySummaryFacts(sessions: seq<Session>)
    requires sessions != []
    ensures var r := MonthlySummary(sessions).value;
      && (forall i, j :: 0 <= i < j < |r| ==> r[i].month < r[j].month)
      && (forall k :: 0 <= k < |sessions| ==> exists i :: 0 <= i < |r| && r[i].month == MonthOf(sessions[k].date))
      && (forall i :: 0 <= i < |r| ==>
            var group := Group(sessions, MonthOfSession, r[i].month);
            && |group| > 0
            && r[i].stabilityPercent == CountIf(group, IsStable) as real / |group| as real * 100.0
            && 0.0 <= r[i].stabilityPercent <= 100.0
            && r[i].avgSignalsPerMin == Mean(Map(group, RateOfSession))
            && Min(Map(group, RateOfSession)) <= r[i].avgSignalsPerMin <= Max(Map(group, RateOfSession)))
  {
    var ms := SessionMonths(sessions);
    var r := MonthlySummary(sessions).value;
    forall k | 0 <= k < |sessions| ensures exists i :: 0 <= i < |r| && r[i].month == MonthOf(sessions[k].date) {
      assert Map(sessions, MonthOfSession)[k] == MonthOf(sessions[k].date);
      assert MonthOf(sessions[k].date) in ms;
      var i :| 0 <= i < |ms| && ms[i] == MonthOf(sessions[k].date);
      assert r[i].month == MonthOf(sessions[k].date);
    }
    forall i | 0 <= i < |r| ensures
      var group := Group(sessions, MonthOfSession, r[i].month);
      && |group| > 0
      && r[i].stabilityPercent == CountIf(group, IsStable) as real / |group| as real * 100.0
      && 0.0 <= r[i].stabilityPercent <= 100.0
      && r[i].avgSignalsPerMin == Mean(Map(group, RateOfSession))
      && Min(Map(group, RateOfSession)) <= r[i].avgSignalsPerMin <= Max(Map(group, RateOfSession))
    {
      assert ms[i] in ms;
      var group := Group(sessions, MonthOfSession, ms[i]);
      GroupOfPresentKey(sessions, MonthOfSession, ms[i]);
      StabilityBounds(group);
      MeanBetween(Map(group, RateOfSession));
    }
  }

  // ---------------------------------------------------------------- cluster shares

  function ClusterCount(sessions: seq<Session>, c: int): nat {
    Count(Map(sessions, ClusterOfSession), c)
  }

  /** count / len(sessions) * 100; Python raises ZeroDivisionError without sessions (None). */
  function ClusterPercent(sessions: seq<Session>, c: int): (r: Option<real>)
    ensures r.None? <==> sessions == []
  {
    if sessions == [] then None else Some(Ratio(ClusterCount(sessions, c), |sessions|) * 100.0)
  }

  /** The overview cards: the number of sessions, the stability rate and the mean rate (None without sessions). */
  datatype Overview = Overview(totalSessions: nat, stabilityRate: Option<real>, avgSignalsPerMin: Option<real>)

  function OverviewCards(sessions: seq<Session>): Overview {
    Overview(
      |sessions|,
      ClusterPercent(sessions, Stable),
      if sessions == [] then None else Some(Mean(Map(sessions, RateOfSession))))
  }

  predicate KnownClusters(sessions: seq<Session>) {
    forall i :: 0 <= i < |sessions| ==> 0 <= sessions[i].cluster <= 2
  }

  /** With every label in {0, 1, 2} the three cluster counts add up to the number of sessions. */
  lemma ClusterCountsTotal(sessions: seq<Session>)
    requires KnownClusters(sessions)
    ensures ClusterCount(sessions, 0) + ClusterCount(sessions, 1) + ClusterCount(sessions, 2) == |sessions|
  {
    CountThree(Map(sessions, ClusterOfSession));
  }

  /** And the three percentages add up to 100. */
  lemma ClusterPercentsTotal(sessions: seq<Session>)
    requires KnownClusters(sessions) && sessions != []
    ensures ClusterPercent(sessions, 0).value + ClusterPercent(sessions, 1).value + ClusterPercent(sessions, 2).value == 100.0
  {
    var n := |sessions|;
    var a, b, c := ClusterCount(sessions, 0), ClusterCount(sessions, 1), ClusterCount(sessions, 2);
    ClusterCountsTotal(sessions);
    RatioSum(a, b, n);
    RatioPairCovers(a + b, c, n);
  }

  /**
    The overview's stability rate is the percentage of cluster 0, between 0 and 100, and
    its mean rate lies between the slowest and the fastest session's.
  */
  lemma OverviewFacts(sessions: seq<Session>)
    requires sessions != []
    ensures var o := OverviewCards(sessions);
      && o.totalSessions == |sessions|
      && o.stabilityRate == ClusterPercent(sessions, Stable)
      && o.stabilityRate.value == CountIf(sessions, IsStable) as real / |sessions| as real * 100.0
      && 0.0 <= o.stabilityRate.value <= 100.0
      && Min(Map(sessions, RateOfSession)) <= o.avgSignalsPerMin.value <= Max(Map(sessions, RateOfSession))
  {
    StableCount(sessions);
    StabilityBounds(sessions);
    MeanBetween(Map(sessions, RateOfSession));
  }

  /** Counting the label 0 is counting the stable sessions. */
  lemma {:induction false} StableCount(sessions: seq<Session>)
    ensures ClusterCount(sessions, Stable) == CountIf(sessions, IsStable)
  {
    if sessions != [] {
      var prefix, last := sessions[..|sessions| - 1], sessions[|sessions| - 1];
      assert sessions == prefix + [last];
      StableCount(prefix);
      assert Map(sessions, ClusterOfSession) == Map(prefix, ClusterOfSession) + [last.cluster];
      CountSnoc(Map(prefix, ClusterOfSession), last.cluster, Stable);
      FilterSnoc(prefix, last, IsStable);
    }
  }

  // ---------------------------------------------------------------- the comparison table

  /** A row of the cluster comparison table, before the :.1f formatting. */
  datatype ClusterRow = ClusterRow(
    cluster: int,
    name: string,
    avgDuration: real,
    avgSignalsPerMin: real,
    avgMaxAnalog: real,
    avgUniqueSignals: real)

  function SessionsOf(sessions: seq<Session>, c: int): seq<Session> {
    Group(sessions, ClusterOfSession, c)
  }

  function ClusterRowOf(group: seq<Session>, c: int): ClusterRow
    requires |group| > 0
  {
    ClusterRow(
      c,
      ClusterName(c),
      Mean(Map(group, DurationOfSession)),
      Mean(Map(group, RateOfSession)),
      Mean(Map(group, MaxAnalogOfSession)),
      Mean(Map(group, UniqueOfSession)))
  }

  /** The rows for the clusters cs that have sessions, in the order of cs. */
  function ComparisonRows(sessions: seq<Session>, cs: seq<int>): seq<ClusterRow> {
    if cs == [] then []
    else
      var c := cs[|cs| - 1];
      var group := SessionsOf(sessions, c);
      ComparisonRows(sessions, cs[..|cs| - 1]) + (if |group| > 0 then [ClusterRowOf(group, c)] else [])
  }

  /** The loop of build_cluster_tab that fills cluster_data for cid in 0, 1, 2. */
  method ClusterComparison(sessions: seq<Session>) returns (clusterData: seq<ClusterRow>)
    ensures clusterData == ComparisonRows(sessions, [Stable, Noisy, Anomalous])
  {
    var ids := [Stable, Noisy, Anomalous];
    clusterData := [];
    for k := 0 to |ids|
      invariant clusterData == ComparisonRows(sessions, ids[..k])
    {
      var cid := ids[k];
      var clusterSessions := SessionsOf(sessions, cid);
      TakeSnoc(ids, k);
      if |clusterSessions| > 0 {
        clusterData := clusterData + [ClusterRowOf(clusterSessions, cid)];
      }
    }
    assert ids[..|ids|] == ids;
  }

  /** Every row averages over the sessions of its own cluster, which has some, and names that cluster. */
  lemma {:induction false} ComparisonRowAt(sessions: seq<Session>, cs: seq<int>, i: nat)
    requires i < |ComparisonRows(sessions, cs)|
    ensures ComparisonRows(sessions, cs)[i].cluster in cs
    ensures |SessionsOf(sessions, ComparisonRows(sessions, cs)[i].cluster)| > 0
    ensures var row := ComparisonRows(sessions, cs)[i];
      row == ClusterRowOf(SessionsOf(sessions, row.cluster), row.cluster)
  {
    var prefix, c := cs[..|cs| - 1], cs[|cs| - 1];
    assert cs == prefix + [c];
    var prev := ComparisonRows(sessions, prefix);
    if i < |prev| {
      ComparisonRowAt(sessions, prefix, i);
    }
  }

  /** Every cluster of cs that has sessions gets a row. */
  lemma {:induction false} ComparisonRowsComplete(sessions: seq<Session>, cs: seq<int>, c: int)
    requires c in cs && |SessionsOf(sessions, c)| > 0
    ensures exists i :: 0 <= i < |ComparisonRows(sessions, cs)| && ComparisonRows(sessions, cs)[i].cluster == c
  {
    var prefix := cs[..|cs| - 1];
    assert cs == prefix + [cs[|cs| - 1]];
    var rows, prev := ComparisonRows(sessions, cs), ComparisonRows(sessions, prefix);
    if c == cs[|cs| - 1] {
      assert rows[|prev|].cluster == c;
    } else {
      ComparisonRowsComplete(sessions, prefix, c);
      var i :| 0 <= i < |prev| && prev[i].cluster == c;
      assert rows[i] == prev[i];
    }
  }

  /** With the clusters listed in ascending order the rows come in ascending order of cluster. */
  lemma {:induction false} ComparisonRowsOrdered(sessions: seq<Session>, cs: seq<int>)
    requires forall i, j :: 0 <= i < j < |cs| ==> cs[i] < cs[j]
    ensures var rows := ComparisonRows(sessions, cs);
      forall i, j :: 0 <= i < j < |rows| ==> rows[i].cluster < rows[j].cluster
  {
    if cs != [] {
      var prefix := cs[..|cs| - 1];
      ComparisonRowsOrdered(sessions, prefix);
      var rows, prev := ComparisonRows(sessions, cs), ComparisonRows(sessions, prefix);
      forall i | 0 <= i < |prev| ensures prev[i].cluster < cs[|cs| - 1] {
        ComparisonRowAt(sessions, prefix, i);
        var k :| 0 <= k < |prefix| && prefix[k] == prev[i].cluster;
      }
    }
  }

  /**
    The comparison table has a row exactly for the clusters 0, 1, 2 that have sessions,
    in that order, each named after its cluster, and its average duration lies between the
    cluster's shortest and longest session.
  */
  lemma ClusterComparisonFacts(sessions: seq<Session>)
    ensures var rows := ComparisonRows(sessions, [Stable, Noisy, Anomalous]);
      && (forall i, j :: 0 <= i < j < |rows| ==> rows[i].cluster < rows[j].cluster)
      && (forall c :: 0 <= c <= 2 && |SessionsOf(sessions, c)| > 0 ==> exists i :: 0 <= i < |rows| && rows[i].cluster == c)
      && (forall i :: 0 <= i < |rows| ==>
            var group := SessionsOf(sessions, rows[i].cluster);
            && 0 <= rows[i].cluster <= 2
            && |group| > 0
            && rows[i].name == ClusterName(rows[i].cluster)
            && Min(Map(group, DurationOfSession)) <= rows[i].avgDuration <= Max(Map(group, DurationOfSession)))
  {
    var cs := [Stable, Noisy, Anomalous];
    var rows := ComparisonRows(sessions, cs);
    ComparisonRowsOrdered(sessions, cs);
    forall c | 0 <= c <= 2 && |SessionsOf(sessions, c)| > 0 ensures exists i :: 0 <= i < |rows| && rows[i].cluster == c {
      assert c in cs;
      ComparisonRowsComplete(sessions, cs, c);
    }
    forall i | 0 <= i < |rows| ensures
      var group := SessionsOf(sessions, rows[i].cluster);
      && 0 <= rows[i].cluster <= 2
      && |group| > 0
      && rows[i].name == ClusterName(rows[i].cluster)
      && Min(Map(group, DurationOfSession)) <= rows[i].avgDuration <= Max(Map(group, DurationOfSession))
    {
      ComparisonRowAt(sessions, cs, i);
      MeanBetween(Map(SessionsOf(sessions, rows[i].cluster), DurationOfSession));
    }
  }

  // ---------------------------------------------------------------- the heatmap

  /** The number of sessions on date d in cluster c. */
  function PairCount(sessions: seq<Session>, d: int, c: int): nat {
    CountIf(sessions, (s: Session) => s.date == d && s.cluster == c)
  }

  /**
    The heatmap's data: z[i][j] is drawn in row dates[i] and in the column labelled
    labels[j]; columns[j] is the cluster whose counts that column holds.
  */
  datatype Heatmap = Heatmap(dates: seq<int>, columns: seq<int>, z: seq<seq<nat>>, labels: seq<string>)

  function CountMatrix(sessions: seq<Session>, dates: seq<int>, columns: seq<int>): (z: seq<seq<nat>>)
    ensures |z| == |dates|
    ensures forall i :: 0 <= i < |z| ==> |z[i]| == |columns|
  {
    seq(|dates|, i requires 0 <= i < |dates| =>
      seq(|columns|, j requires 0 <= j < |columns| => PairCount(sessions, dates[i], columns[j])))
  }

  function SessionClusters(sessions: seq<Session>): (cs: seq<int>)
    ensures Increasing(cs, IntLess) && Distinct(cs)
    ensures forall c :: c in cs <==> c in Map(sessions, ClusterOfSession)
  {
    IntLessIsOrder();
    var cs := SortedDistinct(Map(sessions, ClusterOfSession), IntLess);
    IncreasingDistinct(cs, IntLess);
    cs
  }

  /**
    cluster_heatmap as written: the pivot's columns are the clusters that occur, in
    ascending order, with 0 for a (date, cluster) pair without sessions, but the x labels
    are always "Stable", "Noisy", "Anomalous". Without sessions the frame has no date
    column and pandas raises (None).
  */
  function ClusterHeatmapAsWritten(sessions: seq<Session>): (r: Option<Heatmap>)
    ensures r.None? <==> sessions == []
  {
    if sessions == [] then None
    else
      var dates, columns := SessionDates(sessions), SessionClusters(sessions);
      Some(Heatmap(dates, columns, CountMatrix(sessions, dates, columns), ["Stable", "Noisy", "Anomalous"]))
  }

  /** cluster_heatmap with the pivot reindexed to the clusters 0, 1, 2, so each label sits over its own cluster. */
  function ClusterHeatmap(sessions: seq<Session>): (r: Option<Heatmap>)
    ensures r.None? <==> sessions == []
  {
    if sessions == [] then None
    else
      var dates, columns := SessionDates(sessions), [Stable, Noisy, Anomalous];
      Some(Heatmap(dates, columns, CountMatrix(sessions, dates, columns), Map(columns, ClusterName)))
  }

  /** Every date with sessions has a row of the heatmap, and every row is such a date, in ascending order. */
  lemma HeatmapRows(sessions: seq<Session>)
    ensures var ds := SessionDates(sessions);
      && (forall i, j :: 0 <= i < j < |ds| ==> ds[i] < ds[j])
      && (forall d :: d in ds <==> exists k :: 0 <= k < |sessions| && sessions[k].date == d)
  {
  }

  /**
    The pivot as written: one row per date with sessions, one column per cluster that
    occurs, in ascending order, each cell the number of sessions of its date and cluster.
  */
  lemma HeatmapAsWrittenCounts(sessions: seq<Session>)
    requires sessions != []
    ensures var h := ClusterHeatmapAsWritten(sessions).value;
      && (forall i, j :: 0 <= i < j < |h.dates| ==> h.dates[i] < h.dates[j])
      && (forall d :: d in h.dates <==> exists k :: 0 <= k < |sessions| && sessions[k].date == d)
      && (forall i, j :: 0 <= i < j < |h.columns| ==> h.columns[i] < h.columns[j])
      && (forall c :: c in h.columns <==> exists k :: 0 <= k < |sessions| && sessions[k].cluster == c)
      && |h.z| == |h.dates|
      && (forall i, j :: 0 <= i < |h.z| && 0 <= j < |h.columns| ==> h.z[i][j] == PairCount(sessions, h.dates[i], h.columns[j]))
  {
  }

  function Sample(date: int, serial: nat, cluster: int): Session {
    Session(SessionId(date, serial), date, 30.0, 100, 100.0 / 30.0, 0.5, 0.5, 0.5, 10, 10.0, 20.0, 5.0, 20, 0.1, cluster)
  }

  /**
    A day with one stable and one anomalous session and no noisy one: the pivot has the two
    columns 0 and 2, so the column labelled "Noisy" shows the anomalous session.
  */
  lemma HeatmapAsWrittenMislabels()
    ensures var sessions := [Sample(Jan1st2025, 1, Stable), Sample(Jan1st2025, 2, Anomalous)];
      var h := ClusterHeatmapAsWritten(sessions).value;
      && h.labels[1] == "Noisy"
      && |h.columns| == 2 && h.columns[1] == Anomalous
      && h.z[0][1] == 1
      && PairCount(sessions, Jan1st2025, Noisy) == 0
  {
    var sessions := [Sample(Jan1st2025, 1, Stable), Sample(Jan1st2025, 2, Anomalous)];
    var cs := SessionClusters(sessions);
    assert Map(sessions, ClusterOfSession) == [0, 2];
    assert 0 in cs && 2 in cs;
    assert forall c :: c in cs ==> c == 0 || c == 2;
    assert |cs| == 2 by {
      DistinctWithin(cs, {0, 2});
      assert cs[0] != cs[1] || |cs| < 2;
    }
    assert cs == [0, 2] by {
      assert IntLess(cs[0], cs[1]);
    }
    var ds := SessionDates(sessions);
    assert Map(sessions, DateOfSession) == [Jan1st2025, Jan1st2025];
    assert Jan1st2025 in ds;
    assert ds[0] in ds;
    assert ds[0] == Jan1st2025;
    var f := (s: Session) => s.date == Jan1st2025 && s.cluster == Anomalous;
    assert Filter(sessions, f) == [sessions[1]] by {
      assert sessions == [sessions[0]] + [sessions[1]];
      assert [sessions[0]] == [] + [sessions[0]];
      FilterSnoc([], sessions[0], f);
      FilterSnoc([sessions[0]], sessions[1], f);
    }
    var g := (s: Session) => s.date == Jan1st2025 && s.cluster == Noisy;
    assert Filter(sessions, g) == [] by {
      assert sessions == [sessions[0]] + [sessions[1]];
      assert [sessions[0]] == [] + [sessions[0]];
      FilterSnoc([], sessions[0], g);
      FilterSnoc([sessions[0]], sessions[1], g);
    }
  }

  lemma {:induction false} PairCountsTotal(sessions: seq<Session>, d: int)
    requires KnownClusters(sessions)
    ensures PairCount(sessions, d, 0) + PairCount(sessions, d, 1) + PairCount(sessions, d, 2) ==
            |Group(sessions, DateOfSession, d)|
  {
    if sessions != [] {
      var prefix, last := sessions[..|sessions| - 1], sessions[|sessions| - 1];
      assert sessions == prefix + [last];
      PairCountsTotal(prefix, d);
      FilterSnoc(prefix, last, (s: Session) => s.date == d && s.cluster == 0);
      FilterSnoc(prefix, last, (s: Session) => s.date == d && s.cluster == 1);
      FilterSnoc(prefix, last, (s: Session) => s.date == d && s.cluster == 2);
      GroupSnoc(prefix, last, DateOfSession, d);
    }
  }

  /**
    The corrected heatmap: one row per date with sessions, in ascending order, and the
    columns 0, 1, 2, each under its own cluster's name; each cell counts the sessions of
    its date and cluster (0 where there are none), so with every label in {0, 1, 2} a row
    adds up to the number of sessions on its date.
  */
  lemma ClusterHeatmapFacts(sessions: seq<Session>)
    requires sessions != []
    ensures var h := ClusterHeatmap(sessions).value;
      && (forall i, j :: 0 <= i < j < |h.dates| ==> h.dates[i] < h.dates[j])
      && (forall d :: d in h.dates <==> exists k :: 0 <= k < |sessions| && sessions[k].date == d)
      && |h.columns| == |h.labels| == 3 && |h.z| == |h.dates|
      && (forall j :: 0 <= j < 3 ==> h.columns[j] == j && h.labels[j] == ClusterName(j))
      && (forall i, j :: 0 <= i < |h.z| && 0 <= j < 3 ==> h.z[i][j] == PairCount(sessions, h.dates[i], j))
      && (KnownClusters(sessions) ==> forall i :: 0 <= i < |h.z| ==>
            h.z[i][0] + h.z[i][1] + h.z[i][2] == |Group(sessions, DateOfSession, h.dates[i])|)
  {
    HeatmapRows(sessions);
    var h := ClusterHeatmap(sessions).value;
    if KnownClusters(sessions) {
      forall i | 0 <= i < |h.z| ensures h.z[i][0] + h.z[i][1] + h.z[i][2] == |Group(sessions, DateOfSession, h.dates[i])| {
        PairCountsTotal(sessions, h.dates[i]);
      }
    }
  }
}
