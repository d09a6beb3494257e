/** Building one day's record (`EtherscanDataFetcher.get_daily_transaction_count`) and
    the loop in `main` that collects the records of a date range. Dates are day
    numbers; `timedelta(days=1)` is `+ 1`. */
module DataCollection {
  import opened Wrappers
  import opened VolumeEstimator

  /** The `closest` argument of the block-by-timestamp lookup. */
  datatype Closest = Before | After

  /** The dictionary `{date, tx_count, start_block, end_block}` a successful day yields. */
  datatype DayRecord = DayRecord(date: int, txCount: int, startBlock: int, endBlock: int)

  /** Python truthiness of a block lookup result: `None` and `0` are both false. */
  predicate Truthy(block: Option<int>)
    ensures Truthy(block) <==> block != None && block != Some(0)
  {
    block.Some? && block.value != 0
  }

  /** `get_daily_transaction_count(date)`. `locate(date, After)` stands for the block at
      or after the day's first second and `locate(date, Before)` for the block at or
      before its last second (timestamp conversion and HTTP lookup together; an HTTP
      error or a non-'1' status is `None`). When either block is falsy, the code falls
      through the `if` and the function returns `None` implicitly. */
  function DailyRecord(date: int, locate: (int, Closest) -> Option<int>, fetch: int -> Option<nat>)
    : (record: Option<DayRecord>)
    ensures record.Some? ==> record.value.date == date && record.value.txCount >= 0
  {
    var startBlock := locate(date, After);
    var endBlock := locate(date, Before);
    if Truthy(startBlock) && Truthy(endBlock) then
      Some(DayRecord(date, Estimate(startBlock.value, endBlock.value, fetch),
                     startBlock.value, endBlock.value))
    else
      None
  }

  /** The imperative `get_daily_transaction_count`, running the estimator method. */
  method GetDailyTransactionCount(date: int, locate: (int, Closest) -> Option<int>,
                                  fetch: int -> Option<nat>)
    returns (record: Option<DayRecord>)
    ensures record == DailyRecord(date, locate, fetch)
  {
    var startBlock := locate(date, After);
    var endBlock := locate(date, Before);
    if Truthy(startBlock) && Truthy(endBlock) {
      var txCount := EstimateTxCount(startBlock.value, endBlock.value, fetch);
      record := Some(DayRecord(date, txCount, startBlock.value, endBlock.value));
    } else {
      record := None;
    }
  }

  /** The records `main` keeps for the dates `startDate..endDate`, in date order. */
  function Collected(startDate: int, endDate: int, locate: (int, Closest) -> Option<int>,
                     fetch: int -> Option<nat>): (records: seq<DayRecord>)
    ensures |records| <= if endDate < startDate then 0 else endDate - startDate + 1
    decreases if endDate < startDate then 0 else endDate - startDate + 1
  {
    if endDate < startDate then []
    else
      var earlier := Collected(startDate, endDate - 1, locate, fetch);
      match DailyRecord(endDate, locate, fetch)
      case Some(record) => earlier + [record]
      case None => earlier
  }

  /** The `while current_date <= end_date` loop of `main`: each day's result is appended
      to `all_data` only when it is not `None`. */
  method CollectDays(startDate: int, endDate: int, locate: (int, Closest) -> Option<int>,
                     fetch: int -> Option<nat>)
    returns (allData: seq<DayRecord>)
    ensures allData == Collected(startDate, endDate, locate, fetch)
  {
    allData := [];
    var currentDate := startDate;
    while currentDate <= endDate
      invariant currentDate == startDate || startDate <= currentDate <= endDate + 1
      invariant allData == Collected(startDate, currentDate - 1, locate, fetch)
      decreases endDate - currentDate
    {
      var data := GetDailyTransactionCount(currentDate, locate, fetch);
      if data.Some? {
        allData := allData + [data.value];
      }
      currentDate := currentDate + 1;
    }
  }

  // ---------------------------------------------------------------------------
  // Properties

  /** A day yields a record exactly when both block lookups give a non-`None`,
      non-zero block, and the record carries those blocks and their estimate. */
  lemma RecordOrNothing(date: int, locate: (int, Closest) -> Option<int>, fetch: int -> Option<nat>)
    ensures DailyRecord(date, locate, fetch).Some? <==>
      (locate(date, After).Some? && locate(date, After).value != 0 &&
       locate(date, Before).Some? && locate(date, Before).value != 0)
    ensures DailyRecord(date, locate, fetch).Some? ==>
      var record := DailyRecord(date, locate, fetch).value;
      record.date == date &&
      record.startBlock == locate(date, After).value &&
      record.endBlock == locate(date, Before).value &&
      record.txCount == Estimate(record.startBlock, record.endBlock, fetch) &&
      record.txCount >= 0
  {
    if DailyRecord(date, locate, fetch).Some? {
      EstimateIsExtrapolation(locate(date, After).value, locate(date, Before).value, fetch);
    }
  }

  /** A day whose block lookups succeed but whose sample fetches all fail is still
      recorded, with `tx_count` 0: the loop in `main` does not tell it apart. */
  lemma AllSamplesFailedStillRecorded(date: int, locate: (int, Closest) -> Option<int>,
                                      fetch: int -> Option<nat>)
    requires Truthy(locate(date, After)) && Truthy(locate(date, Before))
    requires forall b :: fetch(b) == None
    ensures DailyRecord(date, locate, fetch).Some?
    ensures DailyRecord(date, locate, fetch).value.txCount == 0
  {
    var blocks := SampleBlocks(locate(date, After).value, locate(date, Before).value);
    forall i | 0 <= i < |blocks|
      ensures fetch(blocks[i]) == None
    {
      var b := blocks[i];
      assert fetch(b) == None;
    }
    EstimateAllFailed(locate(date, After).value, locate(date, Before).value, fetch);
  }

  /** Dates strictly increasing, all within `[first, last]`. */
  predicate DatesAscendingWithin(records: seq<DayRecord>, first: int, last: int)
  {
    (forall i :: 0 <= i < |records| ==> first <= records[i].date <= last) &&
    (forall i, j :: 0 <= i < j < |records| ==> records[i].date < records[j].date)
  }

  /** The collected records have strictly increasing dates inside `[startDate, endDate]`,
      so no date appears twice. */
  lemma {:induction false} CollectedAscending(startDate: int, endDate: int,
                                              locate: (int, Closest) -> Option<int>,
                                              fetch: int -> Option<nat>)
    ensures DatesAscendingWithin(Collected(startDate, endDate, locate, fetch), startDate, endDate)
    decreases if endDate < startDate then 0 else endDate - startDate + 1
  {
    if endDate >= startDate {
      CollectedAscending(startDate, endDate - 1, locate, fetch);
      var earlier := Collected(startDate, endDate - 1, locate, fetch);
      var records := Collected(startDate, endDate, locate, fetch);
      if DailyRecord(endDate, locate, fetch).Some? {
        var last := DailyRecord(endDate, locate, fetch).value;
        assert records == earlier + [last];
        assert last.date == endDate;
      }
    }
  }

  /** A date of the range has a collected record exactly when its `DailyRecord` is not
      `None`, and every collected record is the one `DailyRecord` yields for its date. */
  lemma {:induction false} CollectedExactly(startDate: int, endDate: int,
                                            locate: (int, Closest) -> Option<int>,
                                            fetch: int -> Option<nat>)
    ensures var records := Collected(startDate, endDate, locate, fetch);
      (forall i :: 0 <= i < |records| ==>
        DailyRecord(records[i].date, locate, fetch) == Some(records[i])) &&
      (forall date :: startDate <= date <= endDate && DailyRecord(date, locate, fetch).Some? ==>
        exists i :: 0 <= i < |records| && records[i].date == date)
    decreases if endDate < startDate then 0 else endDate - startDate + 1
  {
    if endDate >= startDate {
      CollectedExactly(startDate, endDate - 1, locate, fetch);
      var earlier := Collected(startDate, endDate - 1, locate, fetch);
      var records := Collected(startDate, endDate, locate, fetch);
      var today := DailyRecord(endDate, locate, fetch);
      if today.Some? {
        assert records == earlier + [today.value];
        forall i | 0 <= i < |records|
          ensures DailyRecord(records[i].date, locate, fetch) == Some(records[i])
        {
          if i < |earlier| {
            assert records[i] == earlier[i];
          } else {
            assert records[i] == today.value && today.value.date == endDate;
          }
        }
      } else {
        assert records == earlier;
      }
      forall date | startDate <= date <= endDate && DailyRecord(date, locate, fetch).Some?
        ensures exists i :: 0 <= i < |records| && records[i].date == date
      {
        if date < endDate {
          var i :| 0 <= i < |earlier| && earlier[i].date == date;
          assert records[i] == earlier[i];
        } else {
          assert records[|records| - 1].date == date;
        }
      }
    }
  }
}
