/**
  The daily feature vectors of the signal log (vizualization/ver_3/var_bek/create_vectors.py):
  every record gets a date and a numeric value, and every date gets one row holding a count
  and a mean value per signal of the whole log, plus day totals, value statistics and shares.
*/
module DailyVectors {
  import opened Wrappers
  import opened Seqs
  import opened Calendar
  import opened Records

  // ---------------------------------------------------------------- the two derived columns

  /** The numeric value of a record: Text for a discrete signal, Double for an analog one, 0 otherwise or when the cell is empty. */
  function GetValue(r: SignalRecord): (v: real)
    ensures IsDiscrete(r) ==> v == r.text.GetOr(0.0)
    ensures IsAnalog(r) ==> v == r.double.GetOr(0.0)
    ensures !IsDiscrete(r) && !IsAnalog(r) ==> v == 0.0
    ensures v != 0.0 ==> (IsDiscrete(r) && r.text == Some(v)) || (IsAnalog(r) && r.double == Some(v))
  {
    if r.valueType == DiscreteType then
      match r.text
      case Some(x) => x
      case None => 0.0
    else if r.valueType == AnalogType then
      match r.double
      case Some(x) => x
      case None => 0.0
    else 0.0
  }

  /** A record with the Date and Value columns the script adds. */
  datatype EventRow = EventRow(rec: SignalRecord, date: int, value: real)

  function ToEventRow(r: SignalRecord): EventRow {
    EventRow(r, DayOf(r.time), GetValue(r))
  }

  /** The frame after the Date and Value columns are written. */
  function Frame(log: seq<SignalRecord>): seq<EventRow> {
    Map(log, ToEventRow)
  }

  function DateOfEvent(e: EventRow): int { e.date }
  function SignalOfEvent(e: EventRow): string { e.rec.signal }
  function ValueOfEvent(e: EventRow): real { e.value }
  predicate IsDiscreteEvent(e: EventRow) { IsDiscrete(e.rec) }
  predicate IsAnalogEvent(e: EventRow) { IsAnalog(e.rec) }

  /** ALL_SIGNALS: the distinct signal names of the whole log, sorted. */
  function AllSignals(log: seq<SignalRecord>): (sigs: seq<string>)
    ensures Increasing(sigs, StrLess) && Distinct(sigs)
    ensures forall s :: s in sigs <==> s in Map(log, SignalOf)
  {
    StrLessIsOrder();
    var sigs := SortedDistinct(Map(log, SignalOf), StrLess);
    IncreasingDistinct(sigs, StrLess);
    sigs
  }

  /** The group keys of groupby("Date"): the distinct dates, ascending. */
  function DaysOf(log: seq<SignalRecord>): (days: seq<int>)
    ensures Increasing(days, IntLess) && Distinct(days)
    ensures forall d :: d in days <==> d in Map(Frame(log), DateOfEvent)
  {
    IntLessIsOrder();
    var days := SortedDistinct(Map(Frame(log), DateOfEvent), IntLess);
    IncreasingDistinct(days, IntLess);
    days
  }

  // ---------------------------------------------------------------- one day's row

  /**
    One row of df_daily. The per-signal keys {sig}_count and {sig}_mean_value are the two
    maps; the standard deviation std_value is carried as its square, the sample variance.
  */
  datatype DayVector = DayVector(
    date: int,
    counts: map<string, nat>,
    means: map<string, real>,
    totalSignals: nat,
    uniqueSignals: nat,
    avgValue: real,
    maxValue: real,
    minValue: real,
    valueVariance: real,
    discreteRatio: real,
    analogRatio: real,
    rareSignalRatio: real)

  function SignalsOf(group: seq<EventRow>): seq<string> {
    Map(group, SignalOfEvent)
  }

  function ValuesOf(group: seq<EventRow>): seq<real> {
    Map(group, ValueOfEvent)
  }

  /** signal_counts.get(sig, 0): the number of the day's records with that signal. */
  function SignalCount(group: seq<EventRow>, sig: string): nat {
    |Group(group, SignalOfEvent, sig)|
  }

  /** signal_means.get(sig, 0.0): the mean value of the day's records with that signal, 0 without any. */
  function SignalMean(group: seq<EventRow>, sig: string): real {
    var g := Group(group, SignalOfEvent, sig);
    if |g| > 0 then Mean(ValuesOf(g)) else 0.0
  }

  /** The signals that occur exactly once that day. */
  function RareSignals(group: seq<EventRow>): set<string> {
    set s | s in SignalsOf(group) && SignalCount(group, s) == 1
  }

  /** The per-signal count keys a row receives for the signal list sigs. */
  function CountsFor(group: seq<EventRow>, sigs: seq<string>): map<string, nat> {
    map s | s in sigs :: SignalCount(group, s)
  }

  function MeansFor(group: seq<EventRow>, sigs: seq<string>): map<string, real> {
    map s | s in sigs :: SignalMean(group, s)
  }

  lemma CountsForSnoc(group: seq<EventRow>, sigs: seq<string>, sig: string)
    ensures CountsFor(group, sigs + [sig]) == CountsFor(group, sigs)[sig := SignalCount(group, sig)]
  {
  }

  lemma MeansForSnoc(group: seq<EventRow>, sigs: seq<string>, sig: string)
    ensures MeansFor(group, sigs + [sig]) == MeansFor(group, sigs)[sig := SignalMean(group, sig)]
  {
  }

  /** The row the script appends for one date group. */
  function DayVectorOf(group: seq<EventRow>, sigs: seq<string>, d: int): DayVector
    requires |group| > 0
  {
    var values := ValuesOf(group);
    var distinct := Elements(SignalsOf(group));
    DayVector(
      d,
      CountsFor(group, sigs),
      MeansFor(group, sigs),
      |group|,
      |distinct|,
      Mean(values),
      Max(values),
      Min(values),
      if |group| > 1 then SampleVariance(values) else 0.0,
      Ratio(CountIf(group, IsDiscreteEvent), |group|),
      Ratio(CountIf(group, IsAnalogEvent), |group|),
      Ratio(|RareSignals(group)|, |distinct|))
  }

  /** A date that occurs in the frame has a non-empty group. */
  lemma GroupOnDateNonEmpty(frame: seq<EventRow>, d: int)
    requires d in Map(frame, DateOfEvent)
    ensures |Group(frame, DateOfEvent, d)| > 0
  {
  }

  /** The rows for the dates days, in that order. */
  function VectorsOver(frame: seq<EventRow>, sigs: seq<string>, days: seq<int>): (rows: seq<DayVector>)
    requires forall i :: 0 <= i < |days| ==> days[i] in Map(frame, DateOfEvent)
    ensures |rows| == |days|
  {
    if days == [] then []
    else
      var d := days[|days| - 1];
      GroupOnDateNonEmpty(frame, d);
      VectorsOver(frame, sigs, days[..|days| - 1]) + [DayVectorOf(Group(frame, DateOfEvent, d), sigs, d)]
  }

  /** Row i is the row of the i-th date's group. */
  lemma {:induction false} VectorsOverAt(frame: seq<EventRow>, sigs: seq<string>, days: seq<int>, i: nat)
    requires forall i :: 0 <= i < |days| ==> days[i] in Map(frame, DateOfEvent)
    requires i < |days|
    ensures |Group(frame, DateOfEvent, days[i])| > 0
    ensures VectorsOver(frame, sigs, days)[i] == DayVectorOf(Group(frame, DateOfEvent, days[i]), sigs, days[i])
  {
    GroupOnDateNonEmpty(frame, days[i]);
    if i < |days| - 1 {
      VectorsOverAt(frame, sigs, days[..|days| - 1], i);
    }
  }

  /** The records list: one row per date of the log, in the order groupby visits the dates. */
  function DailyVectors(log: seq<SignalRecord>): seq<DayVector> {
    VectorsOver(Frame(log), AllSignals(log), DaysOf(log))
  }

  /**
    df_daily: the records as a frame sorted by Date. Without any record the list stays empty,
    the frame built from it has no Date column and sort_values raises KeyError: that failure
    is None. Otherwise the rows are already in date order (DailyVectorsOrdered), so the sort
    keeps them as they are.
  */
  function DailyFrame(log: seq<SignalRecord>): (r: Option<seq<DayVector>>)
    ensures r.None? <==> log == []
  {
    var records := DailyVectors(log);
    assert log != [] ==> Map(Frame(log), DateOfEvent)[0] in DaysOf(log);
    if records == [] then None else Some(records)
  }

  // ---------------------------------------------------------------- properties of one row

  /** A signal has a nonzero count exactly when it occurs among the day's records. */
  lemma SignalCountPositive(group: seq<EventRow>, s: string)
    ensures SignalCount(group, s) > 0 <==> s in SignalsOf(group)
  {
    var g := Group(group, SignalOfEvent, s);
    if |g| > 0 {
      assert g[0] in group;
      var k :| 0 <= k < |group| && group[k] == g[0];
      assert SignalsOf(group)[k] == s;
    }
    if s in SignalsOf(group) {
      var k :| 0 <= k < |group| && SignalsOf(group)[k] == s;
      assert group[k] in g;
    }
  }

  /**
    Every row carries a count and a mean key for exactly the signals of the list it is
    given, and a signal absent that day gets count 0 and mean 0.
  */
  lemma VectorKeys(group: seq<EventRow>, sigs: seq<string>, d: int)
    requires |group| > 0
    ensures var v := DayVectorOf(group, sigs, d);
      && v.date == d
      && (forall s :: s in v.counts <==> s in sigs)
      && (forall s :: s in v.means <==> s in sigs)
      && (forall s :: s in sigs ==> (v.counts[s] == 0 <==> s !in SignalsOf(group)))
      && (forall s :: s in sigs && v.counts[s] == 0 ==> v.means[s] == 0.0)
  {
    forall s | s in sigs ensures SignalCount(group, s) > 0 <==> s in SignalsOf(group) {
      SignalCountPositive(group, s);
    }
  }

  /** Sum of the count keys over a signal list; a signal without a key adds nothing. */
  function CountTotal(counts: map<string, nat>, sigs: seq<string>): int {
    if sigs == [] then 0
    else
      var s := sigs[|sigs| - 1];
      CountTotal(counts, sigs[..|sigs| - 1]) + (if s in counts then counts[s] else 0)
  }

  lemma {:induction false} CountTotalGroupSizes(group: seq<EventRow>, counts: map<string, nat>, sigs: seq<string>)
    requires forall s :: s in sigs ==> s in counts && counts[s] == SignalCount(group, s)
    ensures CountTotal(counts, sigs) == GroupSizes(group, SignalOfEvent, sigs)
  {
    if sigs != [] {
      CountTotalGroupSizes(group, counts, sigs[..|sigs| - 1]);
    }
  }

  /** When the list covers the day's signals without repeats, the per-signal counts add up to total_signals. */
  lemma VectorCountsSum(group: seq<EventRow>, sigs: seq<string>, d: int)
    requires |group| > 0
    requires Distinct(sigs)
    requires forall e :: e in group ==> SignalOfEvent(e) in sigs
    ensures var v := DayVectorOf(group, sigs, d);
      CountTotal(v.counts, sigs) == v.totalSignals
  {
    var v := DayVectorOf(group, sigs, d);
    CountTotalGroupSizes(group, v.counts, sigs);
    GroupSizesTotal(group, SignalOfEvent, sigs);
  }

  /** The nonzero count keys are exactly the day's distinct signals. */
  lemma NonzeroCountsAreSignals(group: seq<EventRow>, sigs: seq<string>)
    requires forall e :: e in group ==> SignalOfEvent(e) in sigs
    ensures var counts := CountsFor(group, sigs);
      (set s | s in counts && counts[s] > 0) == Elements(SignalsOf(group))
  {
    var counts := CountsFor(group, sigs);
    forall s ensures s in counts && counts[s] > 0 <==> s in Elements(SignalsOf(group)) {
      SignalCountPositive(group, s);
      if s in SignalsOf(group) {
        var k :| 0 <= k < |group| && SignalsOf(group)[k] == s;
        assert SignalOfEvent(group[k]) in sigs;
      }
    }
  }

  /** unique_signals is the number of signals with a nonzero count that day. */
  lemma VectorUniqueSignals(group: seq<EventRow>, sigs: seq<string>, d: int)
    requires |group| > 0
    requires forall e :: e in group ==> SignalOfEvent(e) in sigs
    ensures var v := DayVectorOf(group, sigs, d);
      v.uniqueSignals == |set s | s in v.counts && v.counts[s] > 0|
  {
    NonzeroCountsAreSignals(group, sigs);
  }

  /**
    rare_signal_ratio is the number of signals counted exactly once over the number of
    signals counted at all: a share of signals, not of records, and so in [0, 1].
  */
  lemma VectorRareRatio(group: seq<EventRow>, sigs: seq<string>, d: int)
    requires |group| > 0
    requires forall e :: e in group ==> SignalOfEvent(e) in sigs
    ensures var v := DayVectorOf(group, sigs, d);
      && v.rareSignalRatio == Ratio(|set s | s in v.counts && v.counts[s] == 1|, |set s | s in v.counts && v.counts[s] > 0|)
      && 0.0 <= v.rareSignalRatio <= 1.0
  {
    var counts := CountsFor(group, sigs);
    NonzeroCountsAreSignals(group, sigs);
    var once := set s | s in counts && counts[s] == 1;
    assert once == RareSignals(group) by {
      forall s ensures s in once <==> s in RareSignals(group) {
        SignalCountPositive(group, s);
        if s in SignalsOf(group) {
          var k :| 0 <= k < |group| && SignalsOf(group)[k] == s;
          assert SignalOfEvent(group[k]) in sigs;
        }
      }
    }
    SubsetCard(RareSignals(group), Elements(SignalsOf(group)));
    RatioBounds(|RareSignals(group)|, |Elements(SignalsOf(group))|);
  }

  /** min_value <= avg_value <= max_value, and the spread is 0 for a single record and never negative. */
  lemma VectorValueStats(group: seq<EventRow>, sigs: seq<string>, d: int)
    requires |group| > 0
    ensures var v := DayVectorOf(group, sigs, d);
      && v.totalSignals == |group| >= 1
      && v.minValue <= v.avgValue <= v.maxValue
      && v.valueVariance >= 0.0
      && (v.totalSignals == 1 ==> v.valueVariance == 0.0)
  {
    MeanBetween(ValuesOf(group));
  }

  /** discrete_ratio and analog_ratio each lie in [0, 1] and add up to at most 1. */
  lemma VectorShares(group: seq<EventRow>, sigs: seq<string>, d: int)
    requires |group| > 0
    ensures var v := DayVectorOf(group, sigs, d);
      && v.discreteRatio == CountIf(group, IsDiscreteEvent) as real / |group| as real
      && v.analogRatio == CountIf(group, IsAnalogEvent) as real / |group| as real
      && 0.0 <= v.discreteRatio && 0.0 <= v.analogRatio
      && v.discreteRatio + v.analogRatio <= 1.0
  {
    CountIfDisjoint(group, IsDiscreteEvent, IsAnalogEvent);
    var dn, an := CountIf(group, IsDiscreteEvent), CountIf(group, IsAnalogEvent);
    RatioBounds(dn, |group|);
    RatioBounds(an, |group|);
    RatioPairAtMostOne(dn, an, |group|);
  }

  // ---------------------------------------------------------------- properties of df_daily

  /** Row i of df_daily is the row of the i-th date's group, and that group's signals are all in ALL_SIGNALS. */
  lemma DailyRow(log: seq<SignalRecord>, i: nat)
    requires i < |DailyVectors(log)|
    ensures var frame, days := Frame(log), DaysOf(log);
      && |Group(frame, DateOfEvent, days[i])| > 0
      && DailyVectors(log)[i] == DayVectorOf(Group(frame, DateOfEvent, days[i]), AllSignals(log), days[i])
      && (forall e :: e in Group(frame, DateOfEvent, days[i]) ==> SignalOfEvent(e) in AllSignals(log))
  {
    var frame, days := Frame(log), DaysOf(log);
    VectorsOverAt(frame, AllSignals(log), days, i);
    forall e | e in Group(frame, DateOfEvent, days[i]) ensures SignalOfEvent(e) in AllSignals(log) {
      var k :| 0 <= k < |frame| && frame[k] == e;
      assert Map(log, SignalOf)[k] == SignalOfEvent(e);
    }
  }

  /** The rows are in strictly ascending date order, so sort_values("Date") keeps them in place. */
  lemma DailyVectorsOrdered(log: seq<SignalRecord>)
    ensures var daily := DailyVectors(log);
      forall i, j :: 0 <= i < j < |daily| ==> daily[i].date < daily[j].date
  {
    var daily, days := DailyVectors(log), DaysOf(log);
    forall i | 0 <= i < |daily| ensures daily[i].date == days[i] {
      DailyRow(log, i);
    }
  }

  /** There is a row for the date of every record, and every row's date is the date of some record. */
  lemma DailyVectorsCoverDates(log: seq<SignalRecord>)
    ensures var daily := DailyVectors(log);
      && (forall k :: 0 <= k < |log| ==> exists i :: 0 <= i < |daily| && daily[i].date == DayOf(log[k].time))
      && (forall i :: 0 <= i < |daily| ==> exists k :: 0 <= k < |log| && DayOf(log[k].time) == daily[i].date)
  {
    var daily, days, frame := DailyVectors(log), DaysOf(log), Frame(log);
    forall i | 0 <= i < |daily| ensures daily[i].date == days[i] {
      DailyRow(log, i);
    }
    forall k | 0 <= k < |log| ensures exists i :: 0 <= i < |daily| && daily[i].date == DayOf(log[k].time) {
      var d := DayOf(log[k].time);
      assert Map(frame, DateOfEvent)[k] == d;
      assert d in days;
      var i :| 0 <= i < |days| && days[i] == d;
      assert daily[i].date == d;
    }
    forall i | 0 <= i < |daily| ensures exists k :: 0 <= k < |log| && DayOf(log[k].time) == daily[i].date {
      assert days[i] in days;
      assert days[i] in Map(frame, DateOfEvent);
      var k :| 0 <= k < |frame| && Map(frame, DateOfEvent)[k] == days[i];
      assert DayOf(log[k].time) == daily[i].date;
    }
  }

  /** Every row has the same keys: a count and a mean per signal of the whole log, 0 for a signal absent that day. */
  lemma DailyVectorKeys(log: seq<SignalRecord>, i: nat)
    requires i < |DailyVectors(log)|
    ensures var v := DailyVectors(log)[i];
      && (forall s :: s in v.counts <==> s in Map(log, SignalOf))
      && (forall s :: s in v.means <==> s in Map(log, SignalOf))
      && (forall s :: s in v.counts && v.counts[s] == 0 ==> v.means[s] == 0.0)
  {
    DailyRow(log, i);
    VectorKeys(Group(Frame(log), DateOfEvent, DaysOf(log)[i]), AllSignals(log), DaysOf(log)[i]);
  }

  /** The per-signal counts of a row add up to its total_signals. */
  lemma DailyCountsSum(log: seq<SignalRecord>, i: nat)
    requires i < |DailyVectors(log)|
    ensures CountTotal(DailyVectors(log)[i].counts, AllSignals(log)) == DailyVectors(log)[i].totalSignals
  {
    DailyRow(log, i);
    VectorCountsSum(Group(Frame(log), DateOfEvent, DaysOf(log)[i]), AllSignals(log), DaysOf(log)[i]);
  }

  /** Per row: unique signals, the rare-signal share, the value statistics and the value-type shares. */
  lemma DailyRowFacts(log: seq<SignalRecord>, i: nat)
    requires i < |DailyVectors(log)|
    ensures var v := DailyVectors(log)[i];
      && v.uniqueSignals == |set s | s in v.counts && v.counts[s] > 0|
      && v.rareSignalRatio == Ratio(|set s | s in v.counts && v.counts[s] == 1|, v.uniqueSignals)
      && 0.0 <= v.rareSignalRatio <= 1.0
      && v.minValue <= v.avgValue <= v.maxValue
      && (v.totalSignals == 1 ==> v.valueVariance == 0.0)
      && 0.0 <= v.discreteRatio && 0.0 <= v.analogRatio && v.discreteRatio + v.analogRatio <= 1.0
  {
    DailyRow(log, i);
    var group, sigs, d := Group(Frame(log), DateOfEvent, DaysOf(log)[i]), AllSignals(log), DaysOf(log)[i];
    VectorUniqueSignals(group, sigs, d);
    VectorRareRatio(group, sigs, d);
    VectorValueStats(group, sigs, d);
    VectorShares(group, sigs, d);
  }

  // ---------------------------------------------------------------- the script

  /** The inner loop over ALL_SIGNALS: one count and one mean key per signal of the log. */
  method SignalColumns(group: seq<EventRow>, allSignals: seq<string>) returns (counts: map<string, nat>, means: map<string, real>)
    ensures counts == CountsFor(group, allSignals)
    ensures means == MeansFor(group, allSignals)
  {
    counts, means := map[], map[];
    for j := 0 to |allSignals|
      invariant counts == CountsFor(group, allSignals[..j])
      invariant means == MeansFor(group, allSignals[..j])
    {
      var sig := allSignals[j];
      TakeSnoc(allSignals, j);
      CountsForSnoc(group, allSignals[..j], sig);
      MeansForSnoc(group, allSignals[..j], sig);
      counts := counts[sig := SignalCount(group, sig)];
      means := means[sig := SignalMean(group, sig)];
    }
    assert allSignals[..|allSignals|] == allSignals;
  }

  /**
    The script: writes the Date and Value columns, then walks the date groups in ascending
    order and fills each row's per-signal keys in a loop over ALL_SIGNALS. groupby already
    yields the dates in ascending order, so the final sort_values("Date") leaves the rows in
    place (DailyVectorsOrdered); on a log without records it fails, and the result is None.
  */
  method CreateVectors(log: seq<SignalRecord>) returns (daily: Option<seq<DayVector>>)
    ensures daily == DailyFrame(log)
  {
    var frame: seq<EventRow> := [];
    for i := 0 to |log|
      invariant |frame| == i
      invariant forall j :: 0 <= j < i ==> frame[j] == EventRow(log[j], DayOf(log[j].time), GetValue(log[j]))
    {
      frame := frame + [EventRow(log[i], DayOf(log[i].time), GetValue(log[i]))];
    }
    assert frame == Frame(log);
    var allSignals := AllSignals(log);
    var days := DaysOf(log);
    var records := [];
    for k := 0 to |days|
      invariant records == VectorsOver(frame, allSignals, days[..k])
    {
      var date := days[k];
      var group := Group(frame, DateOfEvent, date);
      GroupOnDateNonEmpty(frame, date);
      var counts, means := SignalColumns(group, allSignals);
      var values := ValuesOf(group);
      var distinct := Elements(SignalsOf(group));
      var row := DayVector(
        date,
        counts,
        means,
        |group|,
        |distinct|,
        Mean(values),
        Max(values),
        Min(values),
        if |group| > 1 then SampleVariance(values) else 0.0,
        Ratio(CountIf(group, IsDiscreteEvent), |group|),
        Ratio(CountIf(group, IsAnalogEvent), |group|),
        Ratio(|RareSignals(group)|, |distinct|));
      assert row == DayVectorOf(group, allSignals, date);
      TakeSnoc(days, k);
      records := records + [row];
    }
    assert days[..|days|] == days;
    if records == [] {
      daily := None;
    } else {
      daily := Some(records);
    }
  }
}
