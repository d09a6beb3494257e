/** The daily series (`TradingPatternAnalyzer`): the collected records with the calendar
    columns `day_of_week`, `day_name` and `is_weekend` added, the day-of-week table
    reindexed Monday..Sunday, and the row selections both analysis stages use. */
module TradingPatterns {
  import opened SeqMath
  import opened DataCollection

  /** pandas' `dt.dayofweek`: 0 is Monday, 6 is Sunday. */
  type DayIndex = d: int | 0 <= d < 7

  /** The `day_order` list, which is also the order of `dt.day_name()` by index. */
  const DayOrder: seq<string> :=
    ["Monday", "Tuesday", "Wednesday", "Thursday", "Friday", "Saturday", "Sunday"]

  function DayName(day: DayIndex): (name: string)
    ensures forall d: DayIndex :: DayOrder[d] == name <==> d == day
  {
    DayOrder[day]
  }

  /** `day_of_week.isin([5, 6])`. */
  predicate IsWeekend(dayOfWeek: int)
    ensures IsWeekend(dayOfWeek) <==> 5 <= dayOfWeek <= 6
  {
    dayOfWeek in {5, 6}
  }

  /** The weekend flag holds exactly on the days named Saturday and Sunday. */
  lemma WeekendIsSaturdayOrSunday(day: DayIndex)
    ensures IsWeekend(day) <==> DayName(day) == "Saturday" || DayName(day) == "Sunday"
  {
  }

  /** Day names identify their index. */
  lemma DayNameInjective(d1: DayIndex, d2: DayIndex)
    ensures DayName(d1) == DayName(d2) <==> d1 == d2
  {
  }

  /** One row of the data frame: the record's columns and the calendar columns. */
  datatype Row = Row(date: int, txCount: int, startBlock: int, endBlock: int,
                     dayOfWeek: DayIndex, dayName: string, isWeekend: bool)
  {
    /** The calendar columns agree with `day_of_week`, as the column derivations make them. */
    predicate Consistent()
    {
      dayName == DayName(dayOfWeek) && isWeekend == IsWeekend(dayOfWeek)
    }
  }

  predicate WellFormed(rows: seq<Row>)
  {
    forall i :: 0 <= i < |rows| ==> rows[i].Consistent()
  }

  /** A prefix of a well-formed frame is well formed. */
  lemma WellFormedPrefix(rows: seq<Row>, n: nat)
    requires WellFormed(rows) && n <= |rows|
    ensures WellFormed(rows[..n])
  {
    forall i | 0 <= i < n
      ensures rows[..n][i].Consistent()
    {
      assert rows[..n][i] == rows[i];
    }
  }

  /** The columns added to one record; `calendar` stands for `pd.to_datetime(date).dt.dayofweek`. */
  function WithCalendarColumns(record: DayRecord, calendar: int -> DayIndex): (row: Row)
    ensures row.Consistent()
    ensures row.date == record.date && row.txCount == record.txCount
    ensures row.startBlock == record.startBlock && row.endBlock == record.endBlock
    ensures row.dayOfWeek == calendar(record.date)
  {
    var day := calendar(record.date);
    Row(record.date, record.txCount, record.startBlock, record.endBlock,
        day, DayName(day), IsWeekend(day))
  }

  /** The analyzer; its constructor builds the frame and adds the calendar columns. */
  class TradingPatternAnalyzer {
    var df: seq<Row>

    constructor (data: seq<DayRecord>, calendar: int -> DayIndex)
      ensures |df| == |data| && WellFormed(df)
      ensures forall i :: 0 <= i < |data| ==>
        df[i].date == data[i].date && df[i].txCount == data[i].txCount &&
        df[i].startBlock == data[i].startBlock && df[i].endBlock == data[i].endBlock &&
        df[i].dayOfWeek == calendar(data[i].date)
    {
      df := seq(|data|, i requires 0 <= i < |data| => WithCalendarColumns(data[i], calendar));
    }

    /** `analyze_day_of_week_effect`: per present day name, in Monday..Sunday order, the
        mean and the count of `tx_count`. */
    function AnalyzeDayOfWeekEffect(): (stats: seq<DayStat>)
      reads this
      ensures |stats| == |PresentDayOrder(NamesPresent(df))|
      ensures forall i :: 0 <= i < |stats| ==>
        stats[i].name == PresentDayOrder(NamesPresent(df))[i] &&
        stats[i].count == |DayTx(df, stats[i].name)| && stats[i].count > 0 &&
        stats[i].mean == Mean(DayTx(df, stats[i].name))
    {
      var rows := df;
      var order := PresentDayOrder(NamesPresent(rows));
      PresentDayOrderMembers(NamesPresent(rows));
      seq(|order|, i requires 0 <= i < |order| => DayStatOf(rows, order[i]))
    }
  }

  /** One row of the `day_stats` table; the standard deviation column is not modelled. */
  datatype DayStat = DayStat(name: string, mean: real, count: nat)

  function DayStatOf(rows: seq<Row>, name: string): (stat: DayStat)
    requires name in NamesPresent(rows)
    ensures stat.name == name && stat.count == |DayTx(rows, name)| && stat.count > 0
    ensures stat.mean == Mean(DayTx(rows, name))
  {
    PresentNameHasRows(rows, name);
    var tx := DayTx(rows, name);
    DayStat(name, Mean(tx), |tx|)
  }

  // ---------------------------------------------------------------------------
  // Selecting rows

  /** The boolean masks the analyses index the frame with. */
  datatype Mask =
    | WeekendFlag(flag: bool)    // `df['is_weekend']` (true) or `~df['is_weekend']` (false)
    | NamedDay(name: string)     // `df['day_name'] == name`
    | DaysIn(days: set<int>)     // `df['day_of_week'].isin(days)`
  {
    predicate Keeps(r: Row)
    {
      match this
      case WeekendFlag(flag) => r.isWeekend == flag
      case NamedDay(name) => r.dayName == name
      case DaysIn(days) => r.dayOfWeek in days
    }
  }

  /** `df[mask]['tx_count'].values`: the counts of the rows the mask keeps, in row order. */
  function TxWhere(rows: seq<Row>, mask: Mask): (tx: seq<int>)
    ensures |tx| <= |rows|
  {
    if rows == [] then []
    else
      var earlier := TxWhere(rows[..|rows| - 1], mask);
      var last := rows[|rows| - 1];
      if mask.Keeps(last) then earlier + [last.txCount] else earlier
  }

  /** `df[df['day_name'] == name]['tx_count']`. */
  function DayTx(rows: seq<Row>, name: string): (tx: seq<int>)
    ensures |tx| <= |rows|
    ensures forall x :: x in tx ==>
      exists i :: 0 <= i < |rows| && rows[i].dayName == name && rows[i].txCount == x
  {
    TxWhereSelected(rows, NamedDay(name));
    TxWhere(rows, NamedDay(name))
  }

  /** The counts of the rows whose `day_of_week` is in `days`. */
  function TxOnDays(rows: seq<Row>, days: set<int>): seq<int>
  {
    TxWhere(rows, DaysIn(days))
  }

  /** All counts, in row order. */
  function AllTx(rows: seq<Row>): seq<int>
  {
    seq(|rows|, i requires 0 <= i < |rows| => rows[i].txCount)
  }

  /** Selecting from two runs of rows is selecting from each in turn. */
  lemma {:induction false} TxWhereAppend(a: seq<Row>, b: seq<Row>, mask: Mask)
    ensures TxWhere(a + b, mask) == TxWhere(a, mask) + TxWhere(b, mask)
  {
    if b == [] {
      assert a + b == a;
    } else {
      var b' := b[..|b| - 1];
      assert (a + b)[..|a + b| - 1] == a + b';
      TxWhereAppend(a, b', mask);
    }
  }

  /** One row contributes its count exactly when the mask keeps it. */
  lemma TxWhereSingle(r: Row, mask: Mask)
    ensures TxWhere([r], mask) == if mask.Keeps(r) then [r.txCount] else []
  {
    assert [r][..0] == [];
  }

  /** Two masks that agree on every row select the same counts. */
  lemma {:induction false} TxWhereAgreeing(rows: seq<Row>, mask: Mask, mask': Mask)
    requires forall i :: 0 <= i < |rows| ==> mask.Keeps(rows[i]) == mask'.Keeps(rows[i])
    ensures TxWhere(rows, mask) == TxWhere(rows, mask')
  {
    if rows != [] {
      TxWhereAgreeing(rows[..|rows| - 1], mask, mask');
    }
  }

  /** A mask and its negation split the rows: the two selections have sizes adding up to
      the row count, and together hold every count exactly once. */
  lemma {:induction false} TxWhereComplement(rows: seq<Row>, keep: Mask, drop: Mask)
    requires forall i :: 0 <= i < |rows| ==> drop.Keeps(rows[i]) == !keep.Keeps(rows[i])
    ensures |TxWhere(rows, keep)| + |TxWhere(rows, drop)| == |rows|
    ensures multiset(TxWhere(rows, keep)) + multiset(TxWhere(rows, drop)) == multiset(AllTx(rows))
  {
    if rows != [] {
      var earlier := rows[..|rows| - 1];
      TxWhereComplement(earlier, keep, drop);
      assert AllTx(rows) == AllTx(earlier) + [rows[|rows| - 1].txCount];
    }
  }

  /** A count is selected exactly when some row with that count satisfies the mask. */
  lemma {:induction false} TxWhereMembers(rows: seq<Row>, mask: Mask, x: int)
    ensures x in TxWhere(rows, mask) <==>
      exists i :: 0 <= i < |rows| && mask.Keeps(rows[i]) && rows[i].txCount == x
  {
    if rows != [] {
      var earlier := rows[..|rows| - 1];
      TxWhereMembers(earlier, mask, x);
      if x in TxWhere(earlier, mask) {
        var i :| 0 <= i < |earlier| && mask.Keeps(earlier[i]) && earlier[i].txCount == x;
        assert rows[i] == earlier[i];
      }
      if exists i :: 0 <= i < |rows| && mask.Keeps(rows[i]) && rows[i].txCount == x {
        var i :| 0 <= i < |rows| && mask.Keeps(rows[i]) && rows[i].txCount == x;
        if i < |earlier| {
          assert earlier[i] == rows[i];
        }
      }
    }
  }

  /** Every selected count comes from a row the mask keeps. */
  lemma TxWhereSelected(rows: seq<Row>, mask: Mask)
    ensures forall x :: x in TxWhere(rows, mask) ==>
      exists i :: 0 <= i < |rows| && mask.Keeps(rows[i]) && rows[i].txCount == x
  {
    forall x | x in TxWhere(rows, mask)
      ensures exists i :: 0 <= i < |rows| && mask.Keeps(rows[i]) && rows[i].txCount == x
    {
      TxWhereMembers(rows, mask, x);
    }
  }

  // ---------------------------------------------------------------------------
  // The Monday..Sunday reindex

  /** The index of `day_stats`: the day names that occur in the frame. */
  function NamesPresent(rows: seq<Row>): (names: set<string>)
    ensures forall i :: 0 <= i < |rows| ==> rows[i].dayName in names
    ensures names == {} <==> rows == []
  {
    var names := set i | 0 <= i < |rows| :: rows[i].dayName;
    assert rows != [] ==> rows[0].dayName in names;
    names
  }

  /** A day name that occurs has at least one row. */
  lemma PresentNameHasRows(rows: seq<Row>, name: string)
    requires name in NamesPresent(rows)
    ensures |DayTx(rows, name)| > 0
  {
    var i :| 0 <= i < |rows| && rows[i].dayName == name;
    TxWhereMembers(rows, NamedDay(name), rows[i].txCount);
  }

  /** The indices `d < n` of `day_order` whose name is present, in increasing order. */
  function PresentDayIndices(present: set<string>, n: nat): (days: seq<DayIndex>)
    requires n <= 7
    ensures |days| <= n
  {
    if n == 0 then []
    else
      var earlier := PresentDayIndices(present, n - 1);
      if DayOrder[n - 1] in present then earlier + [n - 1] else earlier
  }

  /** `[day for day in day_order if day in day_stats.index]`. */
  function PresentDayOrder(present: set<string>): (order: seq<string>)
    ensures |order| <= 7
    ensures forall i :: 0 <= i < |order| ==> order[i] in DayOrder && order[i] in present
  {
    var days := PresentDayIndices(present, 7);
    PresentDayIndicesOrdered(present, 7);
    seq(|days|, i requires 0 <= i < |days| => DayName(days[i]))
  }

  /** `days` lists, in increasing order, exactly the indices below `n` whose name is present. */
  predicate ListsPresentDays(days: seq<DayIndex>, present: set<string>, n: nat)
  {
    (forall i, j :: 0 <= i < j < |days| ==> days[i] < days[j]) &&
    (forall i :: 0 <= i < |days| ==> days[i] < n && DayOrder[days[i]] in present) &&
    (forall d :: 0 <= d < n && d < 7 && DayOrder[d] in present ==> d in days)
  }

  lemma {:induction false} PresentDayIndicesOrdered(present: set<string>, n: nat)
    requires n <= 7
    ensures ListsPresentDays(PresentDayIndices(present, n), present, n)
  {
    if n > 0 {
      PresentDayIndicesOrdered(present, n - 1);
      var earlier := PresentDayIndices(present, n - 1);
      var days := PresentDayIndices(present, n);
      if DayOrder[n - 1] in present {
        assert days == earlier + [n - 1];
        forall d | 0 <= d < n && DayOrder[d] in present
          ensures d in days
        {
          if d < n - 1 {
            assert d in earlier;
          } else {
            assert days[|earlier|] == d;
          }
        }
      } else {
        assert days == earlier;
      }
    }
  }

  /** The position of `name` in `names`, or `|names|` when it does not occur. */
  function IndexOf(names: seq<string>, name: string): (k: nat)
    ensures k <= |names|
    ensures k == |names| <==> name !in names
    ensures k < |names| ==> names[k] == name
  {
    if names == [] then 0
    else if names[0] == name then 0
    else IndexOf(names[1..], name) + 1
  }

  /** The reindexed table lists exactly the day names that are present and are in
      `day_order`, each once, in Monday..Sunday order. */
  lemma PresentDayOrderMembers(present: set<string>)
    ensures forall name :: name in PresentDayOrder(present) <==> name in DayOrder && name in present
    ensures forall i, j :: 0 <= i < j < |PresentDayOrder(present)| ==>
      IndexOf(DayOrder, PresentDayOrder(present)[i]) < IndexOf(DayOrder, PresentDayOrder(present)[j])
  {
    var days := PresentDayIndices(present, 7);
    var order := PresentDayOrder(present);
    PresentDayIndicesOrdered(present, 7);
    forall name | name in DayOrder && name in present
      ensures name in order
    {
      var d :| 0 <= d < 7 && DayOrder[d] == name;
      var k :| 0 <= k < |days| && days[k] == d;
      assert order[k] == name;
    }
    forall i, j | 0 <= i < j < |order|
      ensures IndexOf(DayOrder, order[i]) < IndexOf(DayOrder, order[j])
    {
      assert order[i] == DayName(days[i]) && order[j] == DayName(days[j]);
    }
  }
}
