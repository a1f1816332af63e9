/**
  Session features of the signal dashboard (vizualization/app2.py): DataProcessor.extract_features,
  which splits the signal log into sessions and computes one feature row per session, and the
  per-day roll-up of those rows that OverviewTab.render draws.
*/
module Sessions {
  import opened Wrappers
  import opened Seqs
  import opened Calendar
  import opened Records

  // ---------------------------------------------------------------- session boundaries

  /** A gap of strictly more than two hours between consecutive records starts a new session. */
  const MaxGapMinutes := 120

  predicate LongGap(prev: int, next: int) {
    next - prev > MaxGapMinutes
  }

  /** Number of long gaps among records 1..i: the running sum of (diff() in hours > 2).
      The first record's diff is missing, which never counts as a gap. */
  function GapCount(recs: seq<SignalRecord>, i: nat): nat
    requires i < |recs|
  {
    if i == 0 then 0
    else GapCount(recs, i - 1) + (if LongGap(recs[i - 1].time, recs[i].time) then 1 else 0)
  }

  /** The two group-by keys of a record: its date and its running gap count. */
  datatype SessionKey = SessionKey(date: int, gaps: nat)

  /** The order in which pandas sorts the (date, gap count) groups. */
  predicate KeyLess(a: SessionKey, b: SessionKey) {
    a.date < b.date || (a.date == b.date && a.gaps < b.gaps)
  }

  function KeyOf(recs: seq<SignalRecord>, i: nat): SessionKey
    requires i < |recs|
  {
    SessionKey(DayOf(recs[i].time), GapCount(recs, i))
  }

  function Keys(recs: seq<SignalRecord>): (ks: seq<SessionKey>)
    ensures |ks| == |recs|
    ensures forall i :: 0 <= i < |recs| ==> ks[i] == KeyOf(recs, i)
  {
    seq(|recs|, i requires 0 <= i < |recs| => KeyOf(recs, i))
  }

  /** The distinct keys of ks that sort before k. */
  function KeysBelow(ks: seq<SessionKey>, k: SessionKey): set<SessionKey> {
    set x | x in ks && KeyLess(x, k)
  }

  /** ngroup(): the position of a key among the sorted distinct keys. */
  function Rank(ks: seq<SessionKey>, k: SessionKey): nat {
    |KeysBelow(ks, k)|
  }

  /** The session_id column: the group number of every record. */
  function SessionIds(recs: seq<SignalRecord>): (ids: seq<nat>)
    ensures |ids| == |recs|
  {
    var ks := Keys(recs);
    seq(|recs|, i requires 0 <= i < |recs| => Rank(ks, ks[i]))
  }

  /** The number of sessions: the number of distinct (date, gap count) keys. */
  function SessionCount(recs: seq<SignalRecord>): nat {
    |Elements(Keys(recs))|
  }

  /** A record after extract_features has written the date, hour and session_id columns. */
  datatype FrameRow = FrameRow(rec: SignalRecord, date: int, hour: int, sessionId: nat)

  function RecordOfRow(r: FrameRow): SignalRecord { r.rec }
  function SessionOfRow(r: FrameRow): nat { r.sessionId }

  function Annotated(recs: seq<SignalRecord>): (rows: seq<FrameRow>)
    ensures |rows| == |recs|
  {
    var ids := SessionIds(recs);
    seq(|recs|, i requires 0 <= i < |recs| => FrameRow(recs[i], DayOf(recs[i].time), HourOf(recs[i].time), ids[i]))
  }

  /** The records of session g, in their original order (one group of groupby('session_id')). */
  function SessionRecords(recs: seq<SignalRecord>, g: nat): seq<SignalRecord> {
    Map(Group(Annotated(recs), SessionOfRow, g), RecordOfRow)
  }

  // ---------------------------------------------------------------- per-session features

  /**
    One row of the session table. The standard deviation of the analog values is carried as
    its square, the sample variance. Option cells are pandas floats: None is NaN, which is
    what a mean or maximum over cells that are all missing gives.
  */
  datatype SessionRow = SessionRow(
    sessionId: nat,
    date: int,
    durationMin: int,
    totalSignals: nat,
    signalsPerMin: real,
    discreteRatio: real,
    analogRatio: real,
    avgDiscreteActive: Option<real>,
    uniqueDiscrete: nat,
    avgAnalogAbs: Option<real>,
    maxAnalog: Option<real>,
    analogVariance: Option<real>,
    totalUniqueSignals: nat,
    rareSignalRatio: real)

  /** The numeric cells of a column, skipping NaN as pandas' reductions do. */
  function Present(cells: seq<Option<real>>): (vs: seq<real>)
    ensures |vs| <= |cells|
  {
    if cells == [] then []
    else
      var vs := Present(cells[..|cells| - 1]);
      match cells[|cells| - 1]
      case Some(v) => vs + [v]
      case None => vs
  }

  function MeanSkipNaN(cells: seq<Option<real>>): Option<real> {
    var vs := Present(cells);
    if |vs| > 0 then Some(Mean(vs)) else None
  }

  function MaxSkipNaN(cells: seq<Option<real>>): Option<real> {
    var vs := Present(cells);
    if |vs| > 0 then Some(Max(vs)) else None
  }

  function VarianceSkipNaN(cells: seq<Option<real>>): Option<real> {
    var vs := Present(cells);
    if |vs| >= 2 then Some(SampleVariance(vs)) else None
  }

  function Abs(x: real): real {
    if x < 0.0 then -x else x
  }

  function TextOf(r: SignalRecord): Option<real> { r.text }
  function DoubleOf(r: SignalRecord): Option<real> { r.double }

  function AbsDoubleOf(r: SignalRecord): Option<real> {
    match r.double
    case Some(x) => Some(Abs(x))
    case None => None
  }

  /** The records whose signal occurs exactly once in the group. */
  function RareRecords(grp: seq<SignalRecord>): seq<SignalRecord> {
    var signals := Map(grp, SignalOf);
    Filter(grp, (r: SignalRecord) => Count(signals, r.signal) == 1)
  }

  function Duration(grp: seq<SignalRecord>): int
    requires |grp| > 0
  {
    var times := Map(grp, TimeOf);
    MaxInt(times) - MinInt(times) + 1
  }

  /** The feature row of one session's records. */
  function SessionFeatures(id: nat, grp: seq<SignalRecord>): SessionRow
    requires |grp| > 0
  {
    var duration := Duration(grp);
    var total := |grp|;
    var discrete := Filter(grp, IsDiscrete);
    var analog := Filter(grp, IsAnalog);
    SessionRow(
      id,
      DayOf(grp[0].time),
      duration,
      total,
      if duration > 0 then total as real / duration as real else 0.0,
      Ratio(|discrete|, total),
      Ratio(|analog|, total),
      if |discrete| > 0 then MeanSkipNaN(Map(discrete, TextOf)) else Some(0.0),
      if |discrete| > 0 then |Elements(Map(discrete, SignalOf))| else 0,
      if |analog| > 0 then MeanSkipNaN(Map(analog, AbsDoubleOf)) else Some(0.0),
      if |analog| > 0 then MaxSkipNaN(Map(analog, AbsDoubleOf)) else Some(0.0),
      if |analog| > 1 then VarianceSkipNaN(Map(analog, DoubleOf)) else Some(0.0),
      |Elements(Map(grp, SignalOf))|,
      Ratio(|RareRecords(grp)|, total))
  }

  /** The feature row of session id, or None when the session has fewer than two records and is skipped. */
  function SessionRowOf(recs: seq<SignalRecord>, id: nat): Option<SessionRow> {
    var grp := SessionRecords(recs, id);
    if |grp| >= 2 then Some(SessionFeatures(id, grp)) else None
  }

  /** The rows extract_features emits for sessions 0 .. g - 1. */
  function SessionRowsUpTo(recs: seq<SignalRecord>, g: nat): seq<SessionRow> {
    Collect(g, (id: nat) => SessionRowOf(recs, id))
  }

  /** Session g adds its row to the table when it has at least two records, and nothing otherwise. */
  lemma SessionRowsStep(recs: seq<SignalRecord>, g: nat)
    ensures var grp := SessionRecords(recs, g);
      SessionRowsUpTo(recs, g + 1) == SessionRowsUpTo(recs, g) + (if |grp| >= 2 then [SessionFeatures(g, grp)] else [])
  {
  }

  /** The session table extract_features returns. */
  function SessionTable(recs: seq<SignalRecord>): seq<SessionRow> {
    SessionRowsUpTo(recs, SessionCount(recs))
  }

  // ---------------------------------------------------------------- the frame, updated in place

  /** The signal log frame. extract_features writes its date, hour and session_id columns. */
  class SignalFrame {
    var records: seq<SignalRecord>
    var date: seq<int>
    var hour: seq<int>
    var sessionId: seq<nat>

    constructor (recs: seq<SignalRecord>)
      ensures records == recs && date == [] && hour == [] && sessionId == []
    {
      records, date, hour, sessionId := recs, [], [], [];
    }

    /** Writes the three derived columns into this frame and returns the session table. */
    method ExtractFeatures() returns (sessions: seq<SessionRow>)
      modifies this
      ensures records == old(records)
      ensures date == Map(records, (r: SignalRecord) => DayOf(r.time))
      ensures hour == Map(records, (r: SignalRecord) => HourOf(r.time))
      ensures sessionId == SessionIds(records)
      ensures sessions == SessionTable(records)
    {
      var dates, hours, ids := SplitSessions(records);
      date, hour, sessionId := dates, hours, ids;
      sessions := SessionRows(records, dates, hours, ids);
    }
  }

  /**
    The first half of extract_features: the date and hour of every record and its session
    number, the rank of its (date, gap count) key, where the gap count rises at every gap of
    more than two hours.
  */
  method SplitSessions(recs: seq<SignalRecord>) returns (dates: seq<int>, hours: seq<int>, ids: seq<nat>)
    ensures dates == Map(recs, (r: SignalRecord) => DayOf(r.time))
    ensures hours == Map(recs, (r: SignalRecord) => HourOf(r.time))
    ensures ids == SessionIds(recs)
  {
    var n := |recs|;
    var keys: seq<SessionKey> := [];
    dates, hours := [], [];
    var gaps: nat := 0;
    for i := 0 to n
      invariant |keys| == |dates| == |hours| == i
      invariant forall j :: 0 <= j < i ==> keys[j] == KeyOf(recs, j)
      invariant forall j :: 0 <= j < i ==> dates[j] == DayOf(recs[j].time) && hours[j] == HourOf(recs[j].time)
      invariant i == 0 ==> gaps == 0
      invariant i > 0 ==> gaps == GapCount(recs, i - 1)
    {
      if i > 0 && LongGap(recs[i - 1].time, recs[i].time) {
        gaps := gaps + 1;
      }
      keys := keys + [SessionKey(DayOf(recs[i].time), gaps)];
      dates := dates + [DayOf(recs[i].time)];
      hours := hours + [HourOf(recs[i].time)];
    }
    assert keys == Keys(recs);
    ids := seq(n, i requires 0 <= i < n => Rank(keys, keys[i]));
  }

  /**
    The second half of extract_features: group the annotated frame by session_id and compute
    the features of every session of at least two records, in session order.
  */
  method SessionRows(recs: seq<SignalRecord>, dates: seq<int>, hours: seq<int>, ids: seq<nat>)
    returns (sessions: seq<SessionRow>)
    requires dates == Map(recs, (r: SignalRecord) => DayOf(r.time))
    requires hours == Map(recs, (r: SignalRecord) => HourOf(r.time))
    requires ids == SessionIds(recs)
    ensures sessions == SessionTable(recs)
  {
    var n := |recs|;
    var tagged := seq(n, i requires 0 <= i < n => FrameRow(recs[i], dates[i], hours[i], ids[i]));
    assert tagged == Annotated(recs);
    var count := |Elements(Keys(recs))|;
    sessions := [];
    for g := 0 to count
      invariant sessions == SessionRowsUpTo(recs, g)
    {
      var grp := Map(Group<FrameRow, nat>(tagged, SessionOfRow, g), RecordOfRow);
      assert grp == SessionRecords(recs, g);
      SessionRowsStep(recs, g);
      if |grp| < 2 {
        continue;
      }
      sessions := sessions + [SessionFeatures(g, grp)];
    }
  }

  // ---------------------------------------------------------------- properties of the split

  lemma KeyLessTransitive(a: SessionKey, b: SessionKey, c: SessionKey)
    requires KeyLess(a, b) && KeyLess(b, c)
    ensures KeyLess(a, c)
  {
  }

  /** A smaller key gets a smaller group number. */
  lemma RankStrict(ks: seq<SessionKey>, a: SessionKey, b: SessionKey)
    requires a in ks && KeyLess(a, b)
    ensures Rank(ks, a) < Rank(ks, b)
  {
    var below, above := KeysBelow(ks, a), KeysBelow(ks, b);
    assert below <= above - {a};
    SubsetCard(below, above - {a});
  }

  /** Two records share a group number exactly when they share the key. */
  lemma RankInjective(ks: seq<SessionKey>, a: SessionKey, b: SessionKey)
    requires a in ks && b in ks
    ensures Rank(ks, a) == Rank(ks, b) <==> a == b
  {
    if a != b {
      if KeyLess(a, b) {
        RankStrict(ks, a, b);
      } else {
        RankStrict(ks, b, a);
      }
    }
  }

  /** Every group number is below the number of sessions. */
  lemma RankBelowCount(ks: seq<SessionKey>, k: SessionKey)
    requires k in ks
    ensures Rank(ks, k) < |Elements(ks)|
  {
    assert KeysBelow(ks, k) <= Elements(ks) - {k};
    SubsetCard(KeysBelow(ks, k), Elements(ks) - {k});
  }

  lemma SessionIdBelowCount(recs: seq<SignalRecord>, i: nat)
    requires i < |recs|
    ensures SessionIds(recs)[i] < SessionCount(recs)
  {
    var ks := Keys(recs);
    RankBelowCount(ks, ks[i]);
  }

  /**
    A record starts a new session exactly when its date differs from the previous record's
    or more than two hours have passed since it; a gap of exactly two hours does not split.
    The first record has no previous one: its missing diff adds nothing to the gap count.
  */
  lemma SessionBoundary(recs: seq<SignalRecord>, i: nat)
    requires 0 < i < |recs|
    ensures SessionIds(recs)[i] != SessionIds(recs)[i - 1] <==>
              DayOf(recs[i].time) != DayOf(recs[i - 1].time) || LongGap(recs[i - 1].time, recs[i].time)
  {
    var ks := Keys(recs);
    RankInjective(ks, ks[i], ks[i - 1]);
  }

  predicate TimeOrdered(recs: seq<SignalRecord>) {
    forall i, j :: 0 <= i <= j < |recs| ==> recs[i].time <= recs[j].time
  }

  lemma {:induction false} GapCountMonotone(recs: seq<SignalRecord>, i: nat, j: nat)
    requires i <= j < |recs|
    ensures GapCount(recs, i) <= GapCount(recs, j)
    decreases j - i
  {
    if i < j {
      GapCountMonotone(recs, i, j - 1);
    }
  }

  predicate KeyAtMost(a: SessionKey, b: SessionKey) {
    a == b || KeyLess(a, b)
  }

  lemma KeysMonotone(recs: seq<SignalRecord>, i: nat, j: nat)
    requires TimeOrdered(recs)
    requires i <= j < |recs|
    ensures KeyAtMost(KeyOf(recs, i), KeyOf(recs, j))
  {
    DayOfMonotone(recs[i].time, recs[j].time);
    GapCountMonotone(recs, i, j);
  }

  /** For a time-ordered log (the loader sorts by Event_time), the first record is in session 0. */
  lemma SortedFirstSessionId(recs: seq<SignalRecord>)
    requires TimeOrdered(recs)
    requires |recs| > 0
    ensures SessionIds(recs)[0] == 0
  {
    var ks := Keys(recs);
    forall j | 0 <= j < |ks| ensures KeyAtMost(ks[0], ks[j]) {
      KeysMonotone(recs, 0, j);
    }
    assert KeysBelow(ks, ks[0]) == {};
  }

  /** When no key lies strictly between a and b, b's group number follows a's. */
  lemma RankSuccessor(ks: seq<SessionKey>, a: SessionKey, b: SessionKey)
    requires a in ks && KeyLess(a, b)
    requires forall x :: x in ks ==> KeyAtMost(x, a) || KeyAtMost(b, x)
    ensures Rank(ks, b) == Rank(ks, a) + 1
  {
    var lower, upper := KeysBelow(ks, a), KeysBelow(ks, b);
    assert upper == lower + {a};
    assert a !in lower;
  }

  /** For a time-ordered log, session ids increase by one exactly at each session boundary. */
  lemma SortedSessionIdStep(recs: seq<SignalRecord>, i: nat)
    requires TimeOrdered(recs)
    requires 0 < i < |recs|
    ensures SessionIds(recs)[i] == SessionIds(recs)[i - 1] +
              (if DayOf(recs[i].time) != DayOf(recs[i - 1].time) || LongGap(recs[i - 1].time, recs[i].time) then 1 else 0)
  {
    var ks := Keys(recs);
    SessionBoundary(recs, i);
    KeysMonotone(recs, i - 1, i);
    if ks[i] != ks[i - 1] {
      forall x | x in ks ensures KeyAtMost(x, ks[i - 1]) || KeyAtMost(ks[i], x) {
        var j :| 0 <= j < |ks| && ks[j] == x;
        if j >= i {
          KeysMonotone(recs, i, j);
        } else {
          KeysMonotone(recs, j, i - 1);
        }
      }
      RankSuccessor(ks, ks[i - 1], ks[i]);
    }
  }

  // ---------------------------------------------------------------- properties of the rows

  /** Every record of a session lies between its first and last minute, so the duration is positive. */
  lemma DurationPositive(grp: seq<SignalRecord>)
    requires |grp| > 0
    ensures Duration(grp) >= 1
  {
  }

  /** The row's size and timing cells: the session id, the record count, the span in minutes and the rate. */
  lemma SessionTimingFacts(id: nat, grp: seq<SignalRecord>)
    requires |grp| >= 2
    ensures var row := SessionFeatures(id, grp);
      && row.sessionId == id
      && row.date == DayOf(grp[0].time)
      && row.totalSignals == |grp|
      && row.durationMin >= 1
      && row.durationMin == MaxInt(Map(grp, TimeOf)) - MinInt(Map(grp, TimeOf)) + 1
      && row.signalsPerMin == row.totalSignals as real / row.durationMin as real
  {
    DurationPositive(grp);
  }

  /**
    The value-type shares lie in [0, 1] and add up to at most 1, and to exactly 1 when every
    record is discrete or analog.
  */
  lemma SessionRatioFacts(id: nat, grp: seq<SignalRecord>)
    requires |grp| >= 2
    ensures var row := SessionFeatures(id, grp);
      && row.discreteRatio == CountIf(grp, IsDiscrete) as real / |grp| as real
      && row.analogRatio == CountIf(grp, IsAnalog) as real / |grp| as real
      && 0.0 <= row.discreteRatio && 0.0 <= row.analogRatio
      && row.discreteRatio + row.analogRatio <= 1.0
      && ((forall r :: r in grp ==> IsDiscrete(r) || IsAnalog(r)) ==> row.discreteRatio + row.analogRatio == 1.0)
  {
    var d, a := CountIf(grp, IsDiscrete), CountIf(grp, IsAnalog);
    CountIfDisjoint(grp, IsDiscrete, IsAnalog);
    if forall r :: r in grp ==> IsDiscrete(r) || IsAnalog(r) {
      CountIfComplement(grp, IsDiscrete, IsAnalog);
      RatioPairCovers(d, a, |grp|);
    }
    RatioBounds(d, |grp|);
    RatioBounds(a, |grp|);
    RatioPairAtMostOne(d, a, |grp|);
  }

  /** The distinct discrete signals are among the distinct signals, which number at most the records. */
  lemma SessionUniqueFacts(id: nat, grp: seq<SignalRecord>)
    requires |grp| >= 2
    ensures var row := SessionFeatures(id, grp);
      && row.totalUniqueSignals == |Elements(Map(grp, SignalOf))|
      && row.uniqueDiscrete <= row.totalUniqueSignals <= row.totalSignals
  {
    var discrete := Filter(grp, IsDiscrete);
    var signals := Map(grp, SignalOf);
    if |discrete| > 0 {
      assert Elements(Map(discrete, SignalOf)) <= Elements(signals) by {
        forall s | s in Elements(Map(discrete, SignalOf)) ensures s in Elements(signals) {
          var k :| 0 <= k < |discrete| && Map(discrete, SignalOf)[k] == s;
          assert discrete[k] in grp;
          var j :| 0 <= j < |grp| && grp[j] == discrete[k];
          assert signals[j] == s;
        }
      }
      SubsetCard(Elements(Map(discrete, SignalOf)), Elements(signals));
    }
    ElementsCard(signals);
  }

  /**
    The rare-signal share is the fraction of records whose signal occurs once in the session,
    so it lies in [0, 1]; the analog statistics are 0 without analog records and the
    variance is 0 with fewer than two.
  */
  lemma SessionRareAndAnalogFacts(id: nat, grp: seq<SignalRecord>)
    requires |grp| >= 2
    ensures var row := SessionFeatures(id, grp);
      && row.rareSignalRatio == |RareRecords(grp)| as real / |grp| as real
      && 0.0 <= row.rareSignalRatio <= 1.0
      && (CountIf(grp, IsAnalog) == 0 ==> row.avgAnalogAbs == Some(0.0) && row.maxAnalog == Some(0.0))
      && (CountIf(grp, IsAnalog) < 2 ==> row.analogVariance == Some(0.0))
  {
    RatioBounds(|RareRecords(grp)|, |grp|);
  }

  /**
    One row per session of at least two records, in ascending session order, each one the
    features of its own session's records, and no more rows than there are sessions.
  */
  lemma SessionTableFacts(recs: seq<SignalRecord>)
    ensures var table := SessionTable(recs);
      && |table| <= SessionCount(recs)
      && (forall k, l :: 0 <= k < l < |table| ==> table[k].sessionId < table[l].sessionId)
      && (forall k :: 0 <= k < |table| ==>
            |SessionRecords(recs, table[k].sessionId)| >= 2 &&
            table[k] == SessionFeatures(table[k].sessionId, SessionRecords(recs, table[k].sessionId)))
  {
    var f := (id: nat) => SessionRowOf(recs, id);
    var table, ids := SessionTable(recs), CollectedAt(SessionCount(recs), f);
    CollectFacts(SessionCount(recs), f);
    forall k | 0 <= k < |table|
      ensures table[k].sessionId == ids[k]
      ensures |SessionRecords(recs, ids[k])| >= 2 && table[k] == SessionFeatures(ids[k], SessionRecords(recs, ids[k]))
    {
      assert f(ids[k]) == Some(table[k]);
    }
  }

  /** No session of at least two records is missing from the table. */
  lemma SessionTableCovers(recs: seq<SignalRecord>, i: nat)
    requires i < |recs| && |SessionRecords(recs, SessionIds(recs)[i])| >= 2
    ensures exists k :: 0 <= k < |SessionTable(recs)| && SessionTable(recs)[k].sessionId == SessionIds(recs)[i]
  {
    var f := (id: nat) => SessionRowOf(recs, id);
    var table, ids := SessionTable(recs), CollectedAt(SessionCount(recs), f);
    var h := SessionIds(recs)[i];
    SessionIdBelowCount(recs, i);
    CollectFacts(SessionCount(recs), f);
    assert f(h).Some?;
    var k :| 0 <= k < |ids| && ids[k] == h;
    assert f(ids[k]) == Some(table[k]);
  }

  /** Every emitted row counts at least two records, and its ratios lie in [0, 1]. */
  lemma SessionTableRowFacts(recs: seq<SignalRecord>, k: nat)
    requires k < |SessionTable(recs)|
    ensures var row := SessionTable(recs)[k];
      && row.totalSignals >= 2
      && row.durationMin >= 1
      && 0.0 <= row.discreteRatio <= 1.0
      && 0.0 <= row.analogRatio <= 1.0
      && row.discreteRatio + row.analogRatio <= 1.0
      && 0.0 <= row.rareSignalRatio <= 1.0
      && row.uniqueDiscrete <= row.totalUniqueSignals <= row.totalSignals
  {
    SessionTableFacts(recs);
    var row := SessionTable(recs)[k];
    var grp := SessionRecords(recs, row.sessionId);
    SessionTimingFacts(row.sessionId, grp);
    SessionRatioFacts(row.sessionId, grp);
    SessionUniqueFacts(row.sessionId, grp);
    SessionRareAndAnalogFacts(row.sessionId, grp);
  }

  // ---------------------------------------------------------------- the daily roll-up

  /** One row of OverviewTab's daily_stats. */
  datatype DayStats = DayStats(date: int, totalSignalsDay: int, avgSignalsPerMinDay: real, totalDurationDay: int)

  function DateOfRow(r: SessionRow): int { r.date }
  function TotalOfRow(r: SessionRow): int { r.totalSignals }
  function DurationOfRow(r: SessionRow): int { r.durationMin }
  function RateOfRow(r: SessionRow): real { r.signalsPerMin }

  function DayStatsFor(rows: seq<SessionRow>, d: int): DayStats {
    var day := Group(rows, DateOfRow, d);
    DayStats(d, SumBy(day, TotalOfRow), if |day| > 0 then Mean(Map(day, RateOfRow)) else 0.0, SumBy(day, DurationOfRow))
  }

  function DayStatsOver(rows: seq<SessionRow>, ds: seq<int>): (stats: seq<DayStats>)
    ensures |stats| == |ds|
    ensures forall i :: 0 <= i < |ds| ==> stats[i] == DayStatsFor(rows, ds[i])
  {
    if ds == [] then [] else DayStatsOver(rows, ds[..|ds| - 1]) + [DayStatsFor(rows, ds[|ds| - 1])]
  }

  /** The session dates in ascending order: the group keys of groupby('date'). */
  function SessionDates(rows: seq<SessionRow>): seq<int> {
    IntLessIsOrder();
    SortedDistinct(Map(rows, DateOfRow), IntLess)
  }

  /**
    features.groupby('date').agg(sum, mean, sum). When no session has two records the
    feature table is a frame without columns, and looking up its columns raises KeyError:
    that failure is None.
  */
  function DailyStats(rows: seq<SessionRow>): (r: Option<seq<DayStats>>)
    ensures r.None? <==> rows == []
  {
    if rows == [] then None else Some(DayStatsOver(rows, SessionDates(rows)))
  }

  function TotalSignalsDayOf(s: DayStats): int { s.totalSignalsDay }
  function TotalDurationDayOf(s: DayStats): int { s.totalDurationDay }

  lemma {:induction false} DayStatsOverTotals(rows: seq<SessionRow>, ds: seq<int>)
    ensures SumBy(DayStatsOver(rows, ds), TotalSignalsDayOf) == GroupSums(rows, DateOfRow, TotalOfRow, ds)
    ensures SumBy(DayStatsOver(rows, ds), TotalDurationDayOf) == GroupSums(rows, DateOfRow, DurationOfRow, ds)
  {
    if ds != [] {
      var ds' := ds[..|ds| - 1];
      DayStatsOverTotals(rows, ds');
      SumBySnoc(DayStatsOver(rows, ds'), DayStatsFor(rows, ds[|ds| - 1]), TotalSignalsDayOf);
      SumBySnoc(DayStatsOver(rows, ds'), DayStatsFor(rows, ds[|ds| - 1]), TotalDurationDayOf);
    }
  }

  /** The daily roll-up has one row per distinct session date, in ascending order. */
  lemma DailyStatsDates(rows: seq<SessionRow>)
    ensures DailyStats(rows).Some? ==>
      var stats := DailyStats(rows).value;
      && (forall i, j :: 0 <= i < j < |stats| ==> stats[i].date < stats[j].date)
      && (forall i :: 0 <= i < |stats| ==> stats[i].date in Map(rows, DateOfRow))
      && (forall k :: 0 <= k < |rows| ==> exists i :: 0 <= i < |stats| && stats[i].date == rows[k].date)
  {
    if rows == [] { return; }
    var ds := SessionDates(rows);
    var stats := DailyStats(rows).value;
    IntLessIsOrder();
    IncreasingDistinct(ds, IntLess);
    forall k | 0 <= k < |rows| ensures exists i :: 0 <= i < |stats| && stats[i].date == rows[k].date {
      var d := rows[k].date;
      assert Map(rows, DateOfRow)[k] == d;
      assert d in ds;
      var i :| 0 <= i < |ds| && ds[i] == d;
      assert stats[i].date == d;
    }
  }

  /**
    Each day's totals are the sums over that day's sessions, so the daily totals add up to
    the totals over all sessions.
  */
  lemma DailyStatsTotals(rows: seq<SessionRow>)
    ensures DailyStats(rows).Some? ==>
      var stats := DailyStats(rows).value;
      && (forall i :: 0 <= i < |stats| ==>
            stats[i].totalSignalsDay == SumBy(Group(rows, DateOfRow, stats[i].date), TotalOfRow) &&
            stats[i].totalDurationDay == SumBy(Group(rows, DateOfRow, stats[i].date), DurationOfRow))
      && SumBy(stats, TotalSignalsDayOf) == SumBy(rows, TotalOfRow)
      && SumBy(stats, TotalDurationDayOf) == SumBy(rows, DurationOfRow)
  {
    if rows == [] { return; }
    var ds := SessionDates(rows);
    IntLessIsOrder();
    IncreasingDistinct(ds, IntLess);
    forall r | r in rows ensures DateOfRow(r) in ds {
      var k :| 0 <= k < |rows| && rows[k] == r;
      assert Map(rows, DateOfRow)[k] == DateOfRow(r);
    }
    DayStatsOverTotals(rows, ds);
    GroupSumsTotal(rows, DateOfRow, TotalOfRow, ds);
    GroupSumsTotal(rows, DateOfRow, DurationOfRow, ds);
  }
}
