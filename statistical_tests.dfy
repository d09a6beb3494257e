/** The decision logic of the significance stage (`statistical_tests.py`): the weekday and
    weekend groups, Cohen's d and its bands, the p-value labels, the confidence interval,
    the day-of-week groups handed to the ANOVA, and the two verdicts. The test statistics
    and p-values of scipy and the square roots taken by numpy are inputs. */
module StatisticalTests {
  import opened SeqMath
  import opened TradingPatterns

  // ---------------------------------------------------------------------------
  // The weekday / weekend partition

  /** `df[~df['is_weekend']]['tx_count'].values`. */
  function WeekdayTx(rows: seq<Row>): (tx: seq<int>)
    ensures |tx| <= |rows|
    ensures forall x :: x in tx ==>
      exists i :: 0 <= i < |rows| && !rows[i].isWeekend && rows[i].txCount == x
  {
    TxWhereSelected(rows, WeekendFlag(false));
    TxWhere(rows, WeekendFlag(false))
  }

  /** `df[df['is_weekend']]['tx_count'].values`. */
  function WeekendTx(rows: seq<Row>): (tx: seq<int>)
    ensures |tx| <= |rows|
    ensures forall x :: x in tx ==>
      exists i :: 0 <= i < |rows| && rows[i].isWeekend && rows[i].txCount == x
  {
    TxWhereSelected(rows, WeekendFlag(true));
    TxWhere(rows, WeekendFlag(true))
  }

  /** Every row goes to exactly one group: the sizes add up to the row count and the two
      groups together hold every count once. */
  lemma PartitionSplitsRows(rows: seq<Row>)
    ensures |WeekdayTx(rows)| + |WeekendTx(rows)| == |rows|
    ensures multiset(WeekdayTx(rows)) + multiset(WeekendTx(rows)) == multiset(AllTx(rows))
  {
    TxWhereComplement(rows, WeekendFlag(false), WeekendFlag(true));
  }

  /** On a frame whose calendar columns are derived from `day_of_week`, the weekend group
      is exactly the rows on days 5 and 6 and the weekday group the rows on days 0..4. */
  lemma PartitionByDayOfWeek(rows: seq<Row>)
    requires WellFormed(rows)
    ensures WeekendTx(rows) == TxOnDays(rows, {5, 6})
    ensures WeekdayTx(rows) == TxOnDays(rows, {0, 1, 2, 3, 4})
  {
    forall i | 0 <= i < |rows|
      ensures WeekendFlag(true).Keeps(rows[i]) == DaysIn({5, 6}).Keeps(rows[i])
      ensures WeekendFlag(false).Keeps(rows[i]) == DaysIn({0, 1, 2, 3, 4}).Keeps(rows[i])
    {
      assert rows[i].isWeekend == IsWeekend(rows[i].dayOfWeek);
    }
    TxWhereAgreeing(rows, WeekendFlag(true), DaysIn({5, 6}));
    TxWhereAgreeing(rows, WeekendFlag(false), DaysIn({0, 1, 2, 3, 4}));
  }

  // ---------------------------------------------------------------------------
  // Effect size

  /** A weighted average of two values with non-negative weights, not both zero, lies
      between them. */
  lemma WeightedAverageBetween(w1: real, w2: real, v1: real, v2: real)
    requires w1 >= 0.0 && w2 >= 0.0 && w1 + w2 > 0.0
    ensures var avg := (w1 * v1 + w2 * v2) / (w1 + w2);
      (v1 <= avg <= v2) || (v2 <= avg <= v1)
  {
    var total := w1 + w2;
    var avg := (w1 * v1 + w2 * v2) / total;
    assert avg * total == w1 * v1 + w2 * v2;
    assert (avg - v1) * total == w2 * (v2 - v1);
    assert (avg - v2) * total == w1 * (v1 - v2);
    if v1 <= v2 {
      assert w2 * (v2 - v1) >= 0.0;
      assert w1 * (v1 - v2) <= 0.0;
    } else {
      assert w2 * (v2 - v1) <= 0.0;
      assert w1 * (v1 - v2) >= 0.0;
    }
  }

  /** The expression under the square root of `pooled_std`. With both groups non-empty it
      is a weighted average of the two variances, so it lies between them. */
  function PooledVariance(n1: int, n2: int, var1: real, var2: real): (pooled: real)
    requires n1 + n2 != 2
    ensures n1 >= 1 && n2 >= 1 ==> (var1 <= pooled <= var2) || (var2 <= pooled <= var1)
  {
    var w1 := (n1 - 1) as real;
    var w2 := (n2 - 1) as real;
    var pooled := (w1 * var1 + w2 * var2) / (w1 + w2);
    if n1 >= 1 && n2 >= 1 then
      WeightedAverageBetween(w1, w2, var1, var2);
      pooled
    else
      pooled
  }

  /** `calculate_effect_size`, with `pooled_std` (a square root) as a positive input. */
  function CohensD(weekday: seq<int>, weekend: seq<int>, pooledStd: real): (d: real)
    requires |weekday| > 0 && |weekend| > 0 && pooledStd > 0.0
    ensures d * pooledStd == Mean(weekday) - Mean(weekend)
  {
    (Mean(weekday) - Mean(weekend)) / pooledStd
  }

  /** Cohen's d has the sign of `mean(weekday) - mean(weekend)`: positive exactly when
      weekdays are busier, and it changes sign when the groups are swapped. */
  lemma CohensDSign(weekday: seq<int>, weekend: seq<int>, pooledStd: real)
    requires |weekday| > 0 && |weekend| > 0 && pooledStd > 0.0
    ensures CohensD(weekday, weekend, pooledStd) > 0.0 <==> Mean(weekday) > Mean(weekend)
    ensures CohensD(weekday, weekend, pooledStd) < 0.0 <==> Mean(weekday) < Mean(weekend)
    ensures CohensD(weekend, weekday, pooledStd) == -CohensD(weekday, weekend, pooledStd)
  {
    var diff := Mean(weekday) - Mean(weekend);
    var d := CohensD(weekday, weekend, pooledStd);
    assert d * pooledStd == diff;
  }

  /** Weekday counts 100, 110, 120 against weekend counts 50, 60, 70 give a positive d,
      whatever the pooled standard deviation. */
  lemma CohensDBusierWeekdays(pooledStd: real)
    requires pooledStd > 0.0
    ensures CohensD([100, 110, 120], [50, 60, 70], pooledStd) > 0.0
  {
    var weekday: seq<int> := [100, 110, 120];
    var weekend: seq<int> := [50, 60, 70];
    assert weekday[..2] == [100, 110] && weekday[..2][..1] == [100] && [100][..0] == [];
    assert weekend[..2] == [50, 60] && weekend[..2][..1] == [50] && [50][..0] == [];
    assert Sum(weekday) == 330 && Sum(weekend) == 180;
    CohensDSign(weekday, weekend, pooledStd);
  }

  function Abs(x: real): real
  {
    if x < 0.0 then -x else x
  }

  /** The four effect-size bands. */
  datatype EffectSize = Negligible | Small | Medium | Large
  {
    /** The word `interpret_cohens_d` returns. */
    function Word(): string
    {
      match this
      case Negligible => "negligible"
      case Small => "small"
      case Medium => "medium"
      case Large => "large"
    }

    /** The position of the band, from negligible (0) to large (3). */
    function Rank(): nat
    {
      match this
      case Negligible => 0
      case Small => 1
      case Medium => 2
      case Large => 3
    }
  }

  /** `interpret_cohens_d`. */
  function InterpretCohensD(d: real): (effect: EffectSize)
    ensures effect == Negligible <==> Abs(d) < 0.2
    ensures effect == Large <==> 0.8 <= Abs(d)
  {
    var dAbs := Abs(d);
    if dAbs < 0.2 then Negligible
    else if dAbs < 0.5 then Small
    else if dAbs < 0.8 then Medium
    else Large
  }

  /** Each band is an interval of `|d|` with its lower bound included: [0, 0.2), [0.2, 0.5),
      [0.5, 0.8) and [0.8, ∞); d and -d fall in the same band. */
  lemma InterpretCohensDBands(d: real)
    ensures InterpretCohensD(d) == Negligible <==> Abs(d) < 0.2
    ensures InterpretCohensD(d) == Small <==> 0.2 <= Abs(d) < 0.5
    ensures InterpretCohensD(d) == Medium <==> 0.5 <= Abs(d) < 0.8
    ensures InterpretCohensD(d) == Large <==> 0.8 <= Abs(d)
    ensures InterpretCohensD(-d) == InterpretCohensD(d)
    ensures InterpretCohensD(d).Word() == "negligible" <==> Abs(d) < 0.2
    ensures InterpretCohensD(d).Word() == "small" <==> 0.2 <= Abs(d) < 0.5
    ensures InterpretCohensD(d).Word() == "medium" <==> 0.5 <= Abs(d) < 0.8
    ensures InterpretCohensD(d).Word() == "large" <==> 0.8 <= Abs(d)
  {
  }

  /** A larger `|d|` never gets a lower band. */
  lemma InterpretCohensDMonotone(d1: real, d2: real)
    requires Abs(d1) <= Abs(d2)
    ensures InterpretCohensD(d1).Rank() <= InterpretCohensD(d2).Rank()
  {
  }

  // ---------------------------------------------------------------------------
  // p-values

  /** The four labels printed for a p-value. */
  datatype Significance = HighlySignificant | VerySignificant | Significant | NotSignificant
  {
    /** How strong the label is, from not significant (0) to highly significant (3). */
    function Strength(): nat
    {
      match this
      case NotSignificant => 0
      case Significant => 1
      case VerySignificant => 2
      case HighlySignificant => 3
    }
  }

  /** The three-tier labelling, written out alike for the t-test, the Mann-Whitney test
      and the ANOVA. */
  function SignificanceOf(p: real): (tier: Significance)
    ensures tier != NotSignificant <==> p < 0.05
    ensures tier == HighlySignificant <==> p < 0.001
  {
    if p < 0.001 then HighlySignificant
    else if p < 0.01 then VerySignificant
    else if p < 0.05 then Significant
    else NotSignificant
  }

  /** Each label is an interval of p: [.., 0.001), [0.001, 0.01), [0.01, 0.05) and
      [0.05, ..); a label other than "not significant" means p < 0.05. */
  lemma SignificanceThresholds(p: real)
    ensures SignificanceOf(p) == HighlySignificant <==> p < 0.001
    ensures SignificanceOf(p) == VerySignificant <==> 0.001 <= p < 0.01
    ensures SignificanceOf(p) == Significant <==> 0.01 <= p < 0.05
    ensures SignificanceOf(p) == NotSignificant <==> 0.05 <= p
  {
  }

  /** A smaller p-value never gets a weaker label. */
  lemma SignificanceMonotone(p1: real, p2: real)
    requires p1 <= p2
    ensures SignificanceOf(p1).Strength() >= SignificanceOf(p2).Strength()
  {
  }

  /** The Shapiro-Wilk reading: "normally distributed" when p > 0.05. */
  predicate LooksNormal(p: real)
    ensures LooksNormal(p) ==> SignificanceOf(p) == NotSignificant
  {
    p > 0.05
  }

  /** At p = 0.05 a sample reads as neither normal nor significantly different: both
      comparisons are strict. */
  lemma FivePercentBoundary()
    ensures !LooksNormal(0.05) && SignificanceOf(0.05) == NotSignificant
  {
  }

  // ---------------------------------------------------------------------------
  // Confidence interval

  /** The normal-approximation factor of the 95% interval. */
  const Z95: real := 1.96

  datatype Interval = Interval(lower: real, upper: real)

  /** `difference ∓ 1.96 * se_diff`, with `se_diff` (a square root) non-negative. */
  function ConfidenceInterval(difference: real, seDiff: real): (ci: Interval)
    requires seDiff >= 0.0
    ensures ci.lower <= difference <= ci.upper
    ensures ci.upper - difference == difference - ci.lower == Z95 * seDiff
  {
    Interval(difference - Z95 * seDiff, difference + Z95 * seDiff)
  }

  // ---------------------------------------------------------------------------
  // The day-of-week groups of the ANOVA

  /** `[df[df['day_name'] == day]['tx_count'].values for day in day_order]`; a day without
      rows gives an empty group, which is passed on as it is. */
  function AnovaGroups(rows: seq<Row>): (groups: seq<seq<int>>)
    ensures |groups| == 7
  {
    seq(7, k requires 0 <= k < 7 => DayTx(rows, DayOrder[k]))
  }

  /** Total number of observations over a list of groups. */
  function TotalSize(groups: seq<seq<int>>): nat
  {
    if groups == [] then 0 else TotalSize(groups[..|groups| - 1]) + |groups[|groups| - 1]|
  }

  /** Group `k` holds the rows whose `day_of_week` is `k`. */
  lemma AnovaGroupByDay(rows: seq<Row>, k: DayIndex)
    requires WellFormed(rows)
    ensures AnovaGroups(rows)[k] == TxOnDays(rows, {k})
  {
    forall i | 0 <= i < |rows|
      ensures (rows[i].dayName == DayOrder[k]) == (rows[i].dayOfWeek in {k})
    {
      DayNameInjective(rows[i].dayOfWeek, k);
    }
    TxWhereAgreeing(rows, NamedDay(DayOrder[k]), DaysIn({k}));
  }

  /** A day of the week with no rows yields an empty group (the code does not drop it). */
  lemma AnovaGroupEmpty(rows: seq<Row>, k: DayIndex)
    requires WellFormed(rows)
    requires forall i :: 0 <= i < |rows| ==> rows[i].dayOfWeek != k
    ensures AnovaGroups(rows)[k] == []
  {
    AnovaGroupByDay(rows, k);
    if TxOnDays(rows, {k}) != [] {
      var x := TxOnDays(rows, {k})[0];
      TxWhereMembers(rows, DaysIn({k}), x);
    }
  }

  /** All observations of a list of groups, as a multiset. */
  function GroupsMultiset(groups: seq<seq<int>>): multiset<int>
  {
    if groups == [] then multiset{}
    else GroupsMultiset(groups[..|groups| - 1]) + multiset(groups[|groups| - 1])
  }

  /** Appending `x` to group `d` adds `x` to the observations of the groups. */
  lemma {:induction false} GroupsMultisetGrows(groups: seq<seq<int>>, groups': seq<seq<int>>, d: nat, x: int)
    requires |groups'| == |groups| && d < |groups|
    requires forall k :: 0 <= k < |groups| ==>
      groups'[k] == if k == d then groups[k] + [x] else groups[k]
    ensures GroupsMultiset(groups') == GroupsMultiset(groups) + multiset{x}
  {
    var n := |groups|;
    var init, init' := groups[..n - 1], groups'[..n - 1];
    assert GroupsMultiset(groups) == GroupsMultiset(init) + multiset(groups[n - 1]);
    assert GroupsMultiset(groups') == GroupsMultiset(init') + multiset(groups'[n - 1]);
    if d == n - 1 {
      assert init' == init by {
        forall k | 0 <= k < n - 1
          ensures init'[k] == init[k]
        {
          assert groups'[k] == groups[k];
        }
      }
      assert groups'[n - 1] == groups[n - 1] + [x];
      assert multiset(groups'[n - 1]) == multiset(groups[n - 1]) + multiset{x};
    } else {
      forall k | 0 <= k < n - 1
        ensures init'[k] == if k == d then init[k] + [x] else init[k]
      {
        assert init'[k] == groups'[k] && init[k] == groups[k];
      }
      GroupsMultisetGrows(init, init', d, x);
      assert groups'[n - 1] == groups[n - 1];
      assert GroupsMultiset(init') == GroupsMultiset(init) + multiset{x};
    }
  }

  lemma {:induction false} GroupsMultisetOfEmptyGroups(groups: seq<seq<int>>)
    requires forall k :: 0 <= k < |groups| ==> groups[k] == []
    ensures GroupsMultiset(groups) == multiset{}
  {
    if groups != [] {
      GroupsMultisetOfEmptyGroups(groups[..|groups| - 1]);
    }
  }

  /** Adding one observation to group `d` of a list of groups adds one to the total. */
  lemma {:induction false} TotalSizeGrowsByOne(groups: seq<seq<int>>, groups': seq<seq<int>>, d: nat)
    requires |groups'| == |groups| && d < |groups|
    requires forall k :: 0 <= k < |groups| ==>
      |groups'[k]| == |groups[k]| + (if k == d then 1 else 0)
    ensures TotalSize(groups') == TotalSize(groups) + 1
  {
    var n := |groups|;
    if d == n - 1 {
      TotalSizeUnchanged(groups[..n - 1], groups'[..n - 1]);
    } else {
      TotalSizeGrowsByOne(groups[..n - 1], groups'[..n - 1], d);
    }
  }

  lemma {:induction false} TotalSizeUnchanged(groups: seq<seq<int>>, groups': seq<seq<int>>)
    requires |groups'| == |groups|
    requires forall k :: 0 <= k < |groups| ==> |groups'[k]| == |groups[k]|
    ensures TotalSize(groups') == TotalSize(groups)
  {
    if groups != [] {
      TotalSizeUnchanged(groups[..|groups| - 1], groups'[..|groups| - 1]);
    }
  }

  lemma {:induction false} TotalSizeOfEmptyGroups(groups: seq<seq<int>>)
    requires forall k :: 0 <= k < |groups| ==> groups[k] == []
    ensures TotalSize(groups) == 0
  {
    if groups != [] {
      TotalSizeOfEmptyGroups(groups[..|groups| - 1]);
    }
  }

  /** A row appended to the frame joins the group of its own day and no other. */
  lemma AnovaGroupsAppend(earlier: seq<Row>, last: Row)
    requires last.Consistent()
    ensures forall k :: 0 <= k < 7 ==>
      AnovaGroups(earlier + [last])[k] ==
        if k == last.dayOfWeek then AnovaGroups(earlier)[k] + [last.txCount] else AnovaGroups(earlier)[k]
  {
    var rows := earlier + [last];
    assert rows[..|rows| - 1] == earlier;
    forall k | 0 <= k < 7
      ensures AnovaGroups(rows)[k] ==
        if k == last.dayOfWeek then AnovaGroups(earlier)[k] + [last.txCount] else AnovaGroups(earlier)[k]
    {
      DayNameInjective(last.dayOfWeek, k);
      assert AnovaGroups(rows)[k] == DayTx(rows, DayOrder[k]);
      assert AnovaGroups(earlier)[k] == DayTx(earlier, DayOrder[k]);
    }
  }

  /** The seven groups together hold every row once: their sizes add up to the row count
      and together they hold every count. */
  lemma {:induction false} AnovaGroupsCoverRows(rows: seq<Row>)
    requires WellFormed(rows)
    ensures TotalSize(AnovaGroups(rows)) == |rows|
    ensures GroupsMultiset(AnovaGroups(rows)) == multiset(AllTx(rows))
  {
    if rows == [] {
      TotalSizeOfEmptyGroups(AnovaGroups(rows));
      GroupsMultisetOfEmptyGroups(AnovaGroups(rows));
    } else {
      var earlier := rows[..|rows| - 1];
      var last := rows[|rows| - 1];
      WellFormedPrefix(rows, |rows| - 1);
      AnovaGroupsCoverRows(earlier);
      assert rows == earlier + [last];
      AnovaGroupsCoverLast(earlier, last);
    }
  }

  /** The step of `AnovaGroupsCoverRows`: one more row adds one observation, its count. */
  lemma AnovaGroupsCoverLast(earlier: seq<Row>, last: Row)
    requires last.Consistent()
    requires TotalSize(AnovaGroups(earlier)) == |earlier|
    requires GroupsMultiset(AnovaGroups(earlier)) == multiset(AllTx(earlier))
    ensures TotalSize(AnovaGroups(earlier + [last])) == |earlier| + 1
    ensures GroupsMultiset(AnovaGroups(earlier + [last])) == multiset(AllTx(earlier + [last]))
  {
    var rows := earlier + [last];
    AnovaGroupsAppend(earlier, last);
    TotalSizeGrowsByOne(AnovaGroups(earlier), AnovaGroups(rows), last.dayOfWeek);
    GroupsMultisetGrows(AnovaGroups(earlier), AnovaGroups(rows), last.dayOfWeek, last.txCount);
    assert AllTx(rows) == AllTx(earlier) + [last.txCount];
  }

  // ---------------------------------------------------------------------------
  // The verdicts

  /** The console conclusion: significant only when both the t-test and the
      Mann-Whitney test are below 0.05. */
  predicate IsSignificant(pValueT: real, pValueU: real)
    ensures IsSignificant(pValueT, pValueU) ==>
      SignificanceOf(pValueT) != NotSignificant && SignificanceOf(pValueU) != NotSignificant
  {
    pValueT < 0.05 && pValueU < 0.05
  }

  /** The verdict holds exactly when neither test is labelled "not significant"; one
      significant test alone is not enough. */
  lemma VerdictNeedsBothTests(pValueT: real, pValueU: real)
    ensures IsSignificant(pValueT, pValueU) <==>
      SignificanceOf(pValueT) != NotSignificant && SignificanceOf(pValueU) != NotSignificant
    ensures !IsSignificant(0.01, 0.2) && !IsSignificant(0.2, 0.01)
  {
  }

  /** The outputs of the foreign numerics for one run: scipy's p-values and statistics,
      and numpy's `pooled_std` and `se_diff`. */
  datatype Numerics = Numerics(
    pShapiroWeekday: real, pShapiroWeekend: real,
    tStat: real, pValueT: real,
    uStat: real, pValueU: real,
    fStat: real, pValueAnova: real,
    pooledStd: real, seDiff: real)

  /** What `perform_statistical_tests` computes, prints and returns. */
  datatype TestReport = TestReport(
    weekdayCount: nat, weekendCount: nat,
    weekdayMean: real, weekendMean: real, difference: real,
    weekdayLooksNormal: bool, weekendLooksNormal: bool,
    tStat: real, pValueT: real, tResult: Significance,
    uStat: real, pValueU: real, uResult: Significance,
    cohensD: real, effect: EffectSize,
    ci: Interval,
    anovaGroups: seq<seq<int>>, fStat: real, pValueAnova: real, anovaResult: Significance,
    significant: bool)

  /** `perform_statistical_tests`. Both groups must be non-empty for the means to exist
      and the square roots are positive (`pooled_std`) and non-negative (`se_diff`). */
  function PerformStatisticalTests(rows: seq<Row>, numerics: Numerics): (report: TestReport)
    requires |WeekdayTx(rows)| > 0 && |WeekendTx(rows)| > 0
    requires numerics.pooledStd > 0.0 && numerics.seDiff >= 0.0
    ensures report.weekdayCount == |WeekdayTx(rows)| && report.weekendCount == |WeekendTx(rows)|
    ensures report.weekdayCount + report.weekendCount == |rows|
    ensures report.weekdayMean == Mean(WeekdayTx(rows)) && report.weekendMean == Mean(WeekendTx(rows))
    ensures report.weekdayLooksNormal == LooksNormal(numerics.pShapiroWeekday)
    ensures report.weekendLooksNormal == LooksNormal(numerics.pShapiroWeekend)
    ensures report.tStat == numerics.tStat && report.pValueT == numerics.pValueT
    ensures report.uStat == numerics.uStat && report.pValueU == numerics.pValueU
    ensures report.fStat == numerics.fStat && report.pValueAnova == numerics.pValueAnova
    ensures report.tResult == SignificanceOf(numerics.pValueT)
    ensures report.uResult == SignificanceOf(numerics.pValueU)
    ensures report.anovaResult == SignificanceOf(numerics.pValueAnova)
    ensures report.cohensD == CohensD(WeekdayTx(rows), WeekendTx(rows), numerics.pooledStd)
    ensures report.effect == InterpretCohensD(report.cohensD)
    ensures report.ci == ConfidenceInterval(report.difference, numerics.seDiff)
    ensures report.anovaGroups == AnovaGroups(rows)
    ensures report.significant <==> numerics.pValueT < 0.05 && numerics.pValueU < 0.05
    ensures report.difference == report.weekdayMean - report.weekendMean
    ensures report.cohensD > 0.0 <==> report.weekdayMean > report.weekendMean
    ensures report.ci.lower <= report.difference <= report.ci.upper
    ensures report.significant <==> report.tResult != NotSignificant && report.uResult != NotSignificant
    ensures |report.anovaGroups| == 7
  {
    var weekdayTx := WeekdayTx(rows);
    var weekendTx := WeekendTx(rows);
    PartitionSplitsRows(rows);
    CohensDSign(weekdayTx, weekendTx, numerics.pooledStd);
    VerdictNeedsBothTests(numerics.pValueT, numerics.pValueU);
    var difference := Mean(weekdayTx) - Mean(weekendTx);
    var cohensD := CohensD(weekdayTx, weekendTx, numerics.pooledStd);
    TestReport(
      |weekdayTx|, |weekendTx|,
      Mean(weekdayTx), Mean(weekendTx), difference,
      LooksNormal(numerics.pShapiroWeekday), LooksNormal(numerics.pShapiroWeekend),
      numerics.tStat, numerics.pValueT, SignificanceOf(numerics.pValueT),
      numerics.uStat, numerics.pValueU, SignificanceOf(numerics.pValueU),
      cohensD, InterpretCohensD(cohensD),
      ConfidenceInterval(difference, numerics.seDiff),
      AnovaGroups(rows), numerics.fStat, numerics.pValueAnova, SignificanceOf(numerics.pValueAnova),
      IsSignificant(numerics.pValueT, numerics.pValueU))
  }

  /** The CONCLUSION line of the saved summary, decided by the t-test alone. */
  function SummaryConclusion(report: TestReport): (conclusion: string)
    ensures conclusion == "STATISTICALLY SIGNIFICANT" <==> report.pValueT < 0.05
    ensures conclusion in {"STATISTICALLY SIGNIFICANT", "NOT statistically significant"}
  {
    if report.pValueT < 0.05 then "STATISTICALLY SIGNIFICANT" else "NOT statistically significant"
  }

  /** The saved summary says significant exactly when the t-test is below 0.05, whatever the
      Mann-Whitney p-value; it agrees with a significant console verdict, and disagrees
      with the console exactly when the t-test is below 0.05 and the Mann-Whitney test is not. */
  lemma SummaryUsesTTestOnly(rows: seq<Row>, numerics: Numerics)
    requires |WeekdayTx(rows)| > 0 && |WeekendTx(rows)| > 0
    requires numerics.pooledStd > 0.0 && numerics.seDiff >= 0.0
    ensures var report := PerformStatisticalTests(rows, numerics);
      (SummaryConclusion(report) == "STATISTICALLY SIGNIFICANT" <==> numerics.pValueT < 0.05) &&
      (report.significant ==> SummaryConclusion(report) == "STATISTICALLY SIGNIFICANT") &&
      ((SummaryConclusion(report) == "STATISTICALLY SIGNIFICANT") != report.significant <==>
        numerics.pValueT < 0.05 && 0.05 <= numerics.pValueU)
  {
  }
}
