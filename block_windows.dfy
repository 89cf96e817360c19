/** The block windows that `getRlnV1Commitments` queries: starting at the
    storage's deployment block, one window per 10,000 blocks, each closed at
    `min(current, from + 10000)`, until the start reaches the current block.
    Consecutive windows share an endpoint: each `to` is the next `from`. */
module BlockWindows {
  import opened RlnTypes

  /** `batchSize` of the event scan. */
  const BlockBatchSize: nat := 10000

  /** The windows queried from `start` on, in query order. */
  function Windows(start: nat, current: nat): seq<Window>
    decreases current - start
  {
    if start >= current then []
    else [Window(start, Min(current, start + BlockBatchSize))] + Windows(start + BlockBatchSize, current)
  }

  /** Window k starts k steps of 10,000 after `start`, lies before `current`,
      and is closed at `min(current, from + 10000)`. */
  lemma {:induction false} WindowAt(start: nat, current: nat, k: nat)
    requires k < |Windows(start, current)|
    ensures start + k * BlockBatchSize < current
    ensures Windows(start, current)[k]
         == Window(start + k * BlockBatchSize, Min(current, start + k * BlockBatchSize + BlockBatchSize))
    decreases current - start
  {
    if k > 0 {
      WindowAt(start + BlockBatchSize, current, k - 1);
    }
  }

  /** The number of windows is ceil((current - start) / 10000), and none
      when the range is empty. */
  lemma {:induction false} WindowCount(start: nat, current: nat)
    ensures start >= current ==> Windows(start, current) == []
    ensures start < current ==>
      |Windows(start, current)| == (current - start + BlockBatchSize - 1) / BlockBatchSize
    decreases current - start
  {
    if start < current {
      WindowCount(start + BlockBatchSize, current);
    }
  }

  /** Every window is non-empty, ends no later than `current`, and spans at
      most 10,000 blocks; the first starts at `start`. */
  lemma WindowBounds(start: nat, current: nat)
    ensures forall w :: w in Windows(start, current) ==>
      start <= w.from < w.to <= current && w.to - w.from <= BlockBatchSize
    ensures Windows(start, current) != [] ==> Windows(start, current)[0].from == start
  {
    var ws := Windows(start, current);
    forall w | w in ws
      ensures start <= w.from < w.to <= current && w.to - w.from <= BlockBatchSize
    {
      var k :| 0 <= k < |ws| && ws[k] == w;
      WindowAt(start, current, k);
    }
  }

  /** Each later window starts exactly where the previous one ended, 10,000
      blocks after the previous start. */
  lemma WindowsChained(start: nat, current: nat)
    ensures forall k :: 0 <= k < |Windows(start, current)| - 1 ==>
      Windows(start, current)[k].to == Windows(start, current)[k + 1].from
      && Windows(start, current)[k + 1].from == Windows(start, current)[k].from + BlockBatchSize
  {
    var ws := Windows(start, current);
    forall k | 0 <= k < |ws| - 1
      ensures ws[k].to == ws[k + 1].from && ws[k + 1].from == ws[k].from + BlockBatchSize
    {
      WindowAt(start, current, k);
      WindowAt(start, current, k + 1);
    }
  }

  /** For a non-empty range the last window closes at `current`. */
  lemma {:induction false} LastWindowEndsAtCurrent(start: nat, current: nat)
    requires start < current
    ensures Windows(start, current)[|Windows(start, current)| - 1].to == current
    decreases current - start
  {
    if start + BlockBatchSize < current {
      LastWindowEndsAtCurrent(start + BlockBatchSize, current);
    }
  }

  /** Read as half-open spans `[from, to)`, the windows cover every block of
      `[start, current)`. */
  lemma WindowsCover(start: nat, current: nat, b: nat)
    requires start <= b < current
    ensures exists k ::
              0 <= k < |Windows(start, current)| &&
              Windows(start, current)[k].from <= b < Windows(start, current)[k].to
  {
    var k := (b - start) / BlockBatchSize;
    WindowCount(start, current);
    assert k < |Windows(start, current)|;
    WindowAt(start, current, k);
  }

  /** Deployment block 0, current block 25,000: three windows. */
  lemma ThreeWindowsScenario()
    ensures Windows(0, 25000) == [Window(0, 10000), Window(10000, 20000), Window(20000, 25000)]
  {
    assert Windows(30000, 25000) == [];
    assert Windows(20000, 25000) == [Window(20000, 25000)];
  }
}
