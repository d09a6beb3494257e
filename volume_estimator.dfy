/** The block-sampling volume estimator (`EtherscanDataFetcher._estimate_tx_count`):
    it samples at most five blocks of a day's block range, asks for each block's
    transaction count, and extrapolates the average to the whole range. */
module VolumeEstimator {
  import opened Wrappers
  import opened SeqMath

  /** The number of evenly spaced candidate blocks. */
  const SampleSize: nat := 5

  /** `max(1, (end_block - start_block) // 5)`. For the positive divisor 5, Dafny's
      Euclidean `/` is Python's floor division `//`, negative differences included. */
  function Step(startBlock: int, endBlock: int): (step: int)
    ensures step >= 1
  {
    var q := (endBlock - startBlock) / SampleSize;
    if q > 1 then q else 1
  }

  /** The candidates `start_block + i * step` for `i` in `range(n)` that are `<= end_block`,
      in the order the sampling loop appends them. */
  function SampleBlocksUpTo(startBlock: int, endBlock: int, n: nat): (blocks: seq<int>)
    ensures |blocks| <= n
  {
    if n == 0 then []
    else
      var earlier := SampleBlocksUpTo(startBlock, endBlock, n - 1);
      var blockNum := startBlock + (n - 1) * Step(startBlock, endBlock);
      if blockNum <= endBlock then earlier + [blockNum] else earlier
  }

  /** The blocks `_estimate_tx_count` samples for the range. */
  function SampleBlocks(startBlock: int, endBlock: int): (blocks: seq<int>)
    ensures |blocks| <= SampleSize
    ensures forall i :: 0 <= i < |blocks| ==> blocks[i] == startBlock + i * Step(startBlock, endBlock)
  {
    SampleBlocksUpToClosedForm(startBlock, endBlock, SampleSize);
    SampleBlocksUpTo(startBlock, endBlock, SampleSize)
  }

  function Min(a: int, b: int): int
  {
    if a <= b then a else b
  }

  /** The transaction counts of the blocks whose fetch succeeded, in sampling order;
      a failed fetch (`None`) contributes nothing. */
  function Successes(blocks: seq<int>, fetch: int -> Option<nat>): (counts: seq<nat>)
    ensures |counts| <= |blocks|
  {
    if blocks == [] then []
    else
      var earlier := Successes(blocks[..|blocks| - 1], fetch);
      match fetch(blocks[|blocks| - 1])
      case Some(txCount) => earlier + [txCount]
      case None => earlier
  }

  /** Python's `int()` on a float: truncation toward zero. */
  function Trunc(x: real): (t: int)
    ensures x >= 0.0 ==> 0 <= t && t as real <= x < t as real + 1.0
    ensures x < 0.0 ==> t <= 0 && t as real - 1.0 < x <= t as real
  {
    if x >= 0.0 then x.Floor else -((-x).Floor)
  }

  /** The closing arithmetic of the estimator: the average count per valid sample,
      scaled to the whole range and truncated by `int()`. The model computes in exact
      rationals, where the source multiplies floats. */
  function Extrapolate(totalTx: int, validSamples: int, totalBlocks: int): (estimate: int)
    requires validSamples > 0
    ensures totalTx >= 0 && totalBlocks >= 0 ==> estimate >= 0
  {
    var avgTxPerBlock := totalTx as real / validSamples as real;
    Trunc(avgTxPerBlock * totalBlocks as real)
  }

  /** What `_estimate_tx_count(start_block, end_block)` returns, with `fetch` standing
      for `_get_block_tx_count`. */
  function Estimate(startBlock: int, endBlock: int, fetch: int -> Option<nat>): (estimate: int)
    ensures estimate >= 0
  {
    var counts := Successes(SampleBlocks(startBlock, endBlock), fetch);
    SampleBlocksCount(startBlock, endBlock);
    SumNonNegative(counts);
    if |counts| > 0 then Extrapolate(Sum(counts), |counts|, endBlock - startBlock + 1) else 0
  }

  /** The estimator itself: a loop that collects the sample blocks and a loop that
      accumulates `total_tx` and `valid_samples` over the successful fetches. */
  method EstimateTxCount(startBlock: int, endBlock: int, fetch: int -> Option<nat>)
    returns (estimate: int)
    ensures estimate == Estimate(startBlock, endBlock, fetch)
  {
    var sampleBlocks: seq<int> := [];
    var q := (endBlock - startBlock) / SampleSize;
    var step := if q > 1 then q else 1;
    assert step == Step(startBlock, endBlock);
    for i := 0 to SampleSize
      invariant sampleBlocks == SampleBlocksUpTo(startBlock, endBlock, i)
    {
      var blockNum := startBlock + i * step;
      if blockNum <= endBlock {
        sampleBlocks := sampleBlocks + [blockNum];
      }
    }

    var totalTx := 0;
    var validSamples := 0;
    for j := 0 to |sampleBlocks|
      invariant validSamples == |Successes(sampleBlocks[..j], fetch)|
      invariant totalTx == Sum(Successes(sampleBlocks[..j], fetch))
    {
      assert sampleBlocks[..j + 1][..j] == sampleBlocks[..j];
      var txCount := fetch(sampleBlocks[j]);
      if txCount.Some? {
        totalTx := totalTx + txCount.value;
        validSamples := validSamples + 1;
      }
    }
    assert sampleBlocks[..|sampleBlocks|] == sampleBlocks;
    assert sampleBlocks == SampleBlocks(startBlock, endBlock);

    if validSamples > 0 {
      estimate := Extrapolate(totalTx, validSamples, endBlock - startBlock + 1);
    } else {
      estimate := 0;
    }
  }

  // ---------------------------------------------------------------------------
  // The sample blocks

  /** Candidate `i` survives the `block_num <= end_block` filter exactly when `i` is
      below `min(5, end_block - start_block + 1)`. */
  lemma CandidateKept(startBlock: int, endBlock: int, i: nat)
    requires i < SampleSize
    ensures startBlock + i * Step(startBlock, endBlock) <= endBlock
        <==> i < Min(SampleSize, endBlock - startBlock + 1)
  {
    var d := endBlock - startBlock;
    var step := Step(startBlock, endBlock);
    if d >= SampleSize {
      var q := d / SampleSize;
      assert step == q && q >= 1;
      assert q * SampleSize <= d;
      assert i * q <= (SampleSize - 1) * q;
    } else {
      assert step == 1;
    }
  }

  /** The candidates kept among the first `n` are the first `min(n, k)` of them, where
      `k = min(5, end_block - start_block + 1)`. */
  lemma {:induction false} SampleBlocksUpToClosedForm(startBlock: int, endBlock: int, n: nat)
    requires n <= SampleSize
    ensures var k := Min(n, Min(SampleSize, endBlock - startBlock + 1));
      |SampleBlocksUpTo(startBlock, endBlock, n)| == (if k < 0 then 0 else k)
    ensures forall i :: 0 <= i < |SampleBlocksUpTo(startBlock, endBlock, n)| ==>
      SampleBlocksUpTo(startBlock, endBlock, n)[i] == startBlock + i * Step(startBlock, endBlock)
  {
    if n > 0 {
      SampleBlocksUpToClosedForm(startBlock, endBlock, n - 1);
      CandidateKept(startBlock, endBlock, n - 1);
    }
  }

  /** Exactly `min(5, end_block - start_block + 1)` blocks are sampled (none for an
      inverted range), and the `i`-th is `start_block + i * step`. */
  lemma SampleBlocksCount(startBlock: int, endBlock: int)
    ensures endBlock >= startBlock ==>
      |SampleBlocks(startBlock, endBlock)| == Min(SampleSize, endBlock - startBlock + 1)
    ensures endBlock < startBlock ==> SampleBlocks(startBlock, endBlock) == []
    ensures forall i :: 0 <= i < |SampleBlocks(startBlock, endBlock)| ==>
      SampleBlocks(startBlock, endBlock)[i] == startBlock + i * Step(startBlock, endBlock)
  {
    SampleBlocksUpToClosedForm(startBlock, endBlock, SampleSize);
  }

  /** The sample blocks are strictly increasing, lie in `[start_block, end_block]`, and
      the first one is `start_block`. */
  lemma SampleBlocksOrderedInRange(startBlock: int, endBlock: int)
    ensures var blocks := SampleBlocks(startBlock, endBlock);
      (forall i, j :: 0 <= i < j < |blocks| ==> blocks[i] < blocks[j]) &&
      (forall i :: 0 <= i < |blocks| ==> startBlock <= blocks[i] <= endBlock) &&
      (endBlock >= startBlock ==> |blocks| > 0 && blocks[0] == startBlock)
  {
    var blocks := SampleBlocks(startBlock, endBlock);
    var step := Step(startBlock, endBlock);
    SampleBlocksCount(startBlock, endBlock);
    forall i, j | 0 <= i < j < |blocks|
      ensures blocks[i] < blocks[j]
    {
      assert i * step < j * step;
    }
    forall i | 0 <= i < |blocks|
      ensures startBlock <= blocks[i] <= endBlock
    {
      assert 0 <= i * step;
      CandidateKept(startBlock, endBlock, i);
    }
  }

  // ---------------------------------------------------------------------------
  // Accumulating the successful fetches

  lemma {:induction false} SuccessesAppend(a: seq<int>, b: seq<int>, fetch: int -> Option<nat>)
    ensures Successes(a + b, fetch) == Successes(a, fetch) + Successes(b, fetch)
  {
    if b != [] {
      var b' := b[..|b| - 1];
      assert (a + b)[..|a + b| - 1] == a + b';
      SuccessesAppend(a, b', fetch);
    } else {
      assert a + b == a;
    }
  }

  /** A block whose fetch returns `None` is skipped: removing it from the sample changes
      neither `valid_samples` nor `total_tx` (it is not counted as a zero). */
  lemma {:induction false} FailedFetchSkipped(blocks: seq<int>, i: nat, fetch: int -> Option<nat>)
    requires i < |blocks| && fetch(blocks[i]) == None
    ensures Successes(blocks[..i] + blocks[i + 1..], fetch) == Successes(blocks, fetch)
  {
    var before, failed, after := blocks[..i], [blocks[i]], blocks[i + 1..];
    assert blocks == (before + failed) + after;
    assert Successes(failed, fetch) == [] by {
      assert failed[..0] == [];
    }
    SuccessesAppend(before, failed, fetch);
    assert Successes(before + failed, fetch) == Successes(before, fetch);
    SuccessesAppend(before + failed, after, fetch);
    SuccessesAppend(before, after, fetch);
  }

  /** A block whose fetch returns `Some(0)` is a valid sample: it raises `valid_samples`
      by one, which is what distinguishes a genuine zero from a failure. */
  lemma ZeroCountIsASample(blocks: seq<int>, b: int, fetch: int -> Option<nat>)
    requires fetch(b) == Some(0)
    ensures |Successes(blocks + [b], fetch)| == |Successes(blocks, fetch)| + 1
    ensures Sum(Successes(blocks + [b], fetch)) == Sum(Successes(blocks, fetch))
  {
    assert (blocks + [b])[..|blocks + [b]| - 1] == blocks;
  }

  /** When every fetch fails, no sample is valid. */
  lemma {:induction false} AllFailedNoSuccesses(blocks: seq<int>, fetch: int -> Option<nat>)
    requires forall i :: 0 <= i < |blocks| ==> fetch(blocks[i]) == None
    ensures Successes(blocks, fetch) == []
  {
    if blocks != [] {
      AllFailedNoSuccesses(blocks[..|blocks| - 1], fetch);
    }
  }

  /** Every successful count comes from some sampled block. */
  lemma {:induction false} SuccessesFromBlocks(blocks: seq<int>, fetch: int -> Option<nat>, k: nat)
    requires k < |Successes(blocks, fetch)|
    ensures exists i :: 0 <= i < |blocks| && fetch(blocks[i]) == Some(Successes(blocks, fetch)[k])
  {
    var earlier := blocks[..|blocks| - 1];
    var last := blocks[|blocks| - 1];
    if k < |Successes(earlier, fetch)| {
      SuccessesFromBlocks(earlier, fetch, k);
      var i :| 0 <= i < |earlier| && fetch(earlier[i]) == Some(Successes(earlier, fetch)[k]);
      assert blocks[i] == earlier[i];
    } else {
      assert fetch(blocks[|blocks| - 1]) == Some(Successes(blocks, fetch)[k]);
    }
  }

  // ---------------------------------------------------------------------------
  // The estimate

  /** If every sample fetch fails, the estimate is 0. */
  lemma EstimateAllFailed(startBlock: int, endBlock: int, fetch: int -> Option<nat>)
    requires forall i :: 0 <= i < |SampleBlocks(startBlock, endBlock)| ==>
      fetch(SampleBlocks(startBlock, endBlock)[i]) == None
    ensures Estimate(startBlock, endBlock, fetch) == 0
  {
    AllFailedNoSuccesses(SampleBlocks(startBlock, endBlock), fetch);
  }

  /** For non-negative counts, the model's extrapolation (exact rational arithmetic, then
      truncation) is the floor of the exact product, which is the integer quotient
      `total_tx * total_blocks // valid_samples`. */
  lemma ExtrapolateIsFloor(totalTx: int, validSamples: int, totalBlocks: int)
    requires totalTx >= 0 && validSamples > 0 && totalBlocks >= 1
    ensures var x := totalTx as real / validSamples as real * totalBlocks as real;
      var estimate := Extrapolate(totalTx, validSamples, totalBlocks);
      0 <= estimate && estimate as real <= x < estimate as real + 1.0 &&
      estimate == totalTx * totalBlocks / validSamples
  {
    var n := totalTx * totalBlocks;
    var x := totalTx as real / validSamples as real * totalBlocks as real;
    assert x == n as real / validSamples as real;
    var q := n / validSamples;
    var r := n % validSamples;
    assert n == q * validSamples + r && 0 <= r < validSamples;
    assert n as real / validSamples as real == q as real + r as real / validSamples as real;
    assert 0.0 <= r as real / validSamples as real < 1.0;
  }

  /** The estimate is never negative; it is 0 when no sample is valid, and otherwise the
      extrapolation of `total_tx` over `valid_samples` to a range of at least one block. */
  lemma EstimateIsExtrapolation(startBlock: int, endBlock: int, fetch: int -> Option<nat>)
    ensures Estimate(startBlock, endBlock, fetch) >= 0
    ensures var counts := Successes(SampleBlocks(startBlock, endBlock), fetch);
      if |counts| == 0 then
        Estimate(startBlock, endBlock, fetch) == 0
      else
        (endBlock >= startBlock &&
         Estimate(startBlock, endBlock, fetch) == Extrapolate(Sum(counts), |counts|, endBlock - startBlock + 1) &&
         Estimate(startBlock, endBlock, fetch) == Sum(counts) * (endBlock - startBlock + 1) / |counts|)
  {
    var counts := Successes(SampleBlocks(startBlock, endBlock), fetch);
    if |counts| > 0 {
      SampleBlocksCount(startBlock, endBlock);
      SumNonNegative(counts);
      ExtrapolateIsFloor(Sum(counts), |counts|, endBlock - startBlock + 1);
    }
  }

  /** A one-block range whose fetch returns `c` is estimated at exactly `c`. */
  lemma EstimateSingleBlock(block: int, fetch: int -> Option<nat>, c: nat)
    requires fetch(block) == Some(c)
    ensures Estimate(block, block, fetch) == c
  {
    SampleBlocksCount(block, block);
    var blocks := SampleBlocks(block, block);
    assert blocks == [block];
    assert blocks[..0] == [];
    assert Successes(blocks, fetch) == [c];
    assert Sum([c]) == c by {
      assert [c][..0] == [];
    }
    ExtrapolateIsFloor(c, 1, 1);
  }
}
