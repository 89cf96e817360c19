/** What the chunked scan returns for two readings of `queryFilter`'s block
    bounds. The script hands `queryFilter` windows that share their endpoints,
    and which events a window returns is decided by the chain client, outside
    the script. Here the storage's history is an ordered log of events tagged
    with their block, and a window is read either as the half-open span
    `[from, to)` or as the closed span `[from, to]`. */
module EventLog {
  import opened Wrappers
  import opened RlnTypes
  import opened BlockWindows
  import opened CommitmentScan

  /** A `MemberRegistered` event emitted in block `block`. */
  datatype LoggedEvent = LoggedEvent(block: nat, event: MemberRegistered)

  /** Events appear in the log in block order. */
  predicate Ordered(log: seq<LoggedEvent>)
  {
    forall i, j :: 0 <= i < j < |log| ==> log[i].block <= log[j].block
  }

  /** The events of blocks in `[from, to)`, in log order. */
  function InRange(log: seq<LoggedEvent>, from: nat, to: nat): (r: seq<MemberRegistered>)
    ensures |r| <= |log|
  {
    if log == [] then []
    else if from <= log[0].block < to then [log[0].event] + InRange(log[1..], from, to)
    else InRange(log[1..], from, to)
  }

  /** `queryFilter` reading a window as `[from, to)`. */
  function HalfOpen(log: seq<LoggedEvent>): EventSource
  {
    (from: nat, to: nat) => Some(InRange(log, from, to))
  }

  /** `queryFilter` reading a window as `[from, to]`. */
  function Inclusive(log: seq<LoggedEvent>): EventSource
  {
    (from: nat, to: nat) => Some(InRange(log, from, to + 1))
  }

  /** An empty span holds no events. */
  lemma {:induction false} InRangeEmpty(log: seq<LoggedEvent>, from: nat, to: nat)
    requires to <= from
    ensures InRange(log, from, to) == []
  {
    if log != [] {
      InRangeEmpty(log[1..], from, to);
    }
  }

  /** The rest of an ordered log is ordered, and no earlier than its head. */
  lemma OrderedTail(log: seq<LoggedEvent>)
    requires Ordered(log) && log != []
    ensures Ordered(log[1..])
    ensures forall i :: 0 <= i < |log[1..]| ==> log[0].block <= log[1..][i].block
  {
    var tail := log[1..];
    forall i, j | 0 <= i < j < |tail| ensures tail[i].block <= tail[j].block {
      assert tail[i] == log[i + 1] && tail[j] == log[j + 1];
    }
    forall i | 0 <= i < |tail| ensures log[0].block <= tail[i].block {
      assert tail[i] == log[i + 1];
    }
  }

  /** In an ordered log, the events of `[a, b)` are those of `[a, m)`
      followed by those of `[m, b)`. */
  lemma {:induction false} InRangeSplit(log: seq<LoggedEvent>, a: nat, m: nat, b: nat)
    requires Ordered(log) && a <= m <= b
    ensures InRange(log, a, b) == InRange(log, a, m) + InRange(log, m, b)
  {
    if log != [] {
      var x, tail := log[0], log[1..];
      OrderedTail(log);
      InRangeSplit(tail, a, m, b);
      if m <= x.block {
        // every later event is at or after m, so none of them lies in [a, m)
        InRangeBelow(tail, a, m);
      }
      SplitStep(log, a, m, b);
    }
  }

  /** One step of InRangeSplit: the head of the log goes to whichever side
      of `m` its block lies on. */
  lemma SplitStep(log: seq<LoggedEvent>, a: nat, m: nat, b: nat)
    requires log != [] && a <= m <= b
    requires InRange(log[1..], a, b) == InRange(log[1..], a, m) + InRange(log[1..], m, b)
    requires m <= log[0].block ==> InRange(log[1..], a, m) == []
    ensures InRange(log, a, b) == InRange(log, a, m) + InRange(log, m, b)
  {
    var x, tail := log[0], log[1..];
    var am, mb := InRange(tail, a, m), InRange(tail, m, b);
    if a <= x.block < m {
      assert [x.event] + (am + mb) == ([x.event] + am) + mb;
    }
  }

  /** No event of an ordered log that starts at or after block `m` lies before `m`. */
  lemma {:induction false} InRangeBelow(log: seq<LoggedEvent>, a: nat, m: nat)
    requires forall i :: 0 <= i < |log| ==> m <= log[i].block
    ensures InRange(log, a, m) == []
  {
    if log != [] {
      InRangeBelow(log[1..], a, m);
    }
  }

  /** Under the half-open reading, scanning `[start, current)` window by
      window returns exactly the commitments of one query over the whole
      range, each once and in chain order. */
  lemma {:induction false} ChunkedScanIsLossless(log: seq<LoggedEvent>, start: nat, current: nat)
    requires Ordered(log)
    ensures Collected(Windows(start, current), HalfOpen(log)) == Some(Ids(InRange(log, start, current)))
    decreases current - start
  {
    if start >= current {
      InRangeEmpty(log, start, current);
    } else {
      var next := start + BlockBatchSize;
      var w := Window(start, Min(current, next));
      var rest := Windows(next, current);
      assert Windows(start, current) == [w] + rest;
      CollectedAppend([w], rest, HalfOpen(log));
      CollectedSingle(w, HalfOpen(log));
      ChunkedScanIsLossless(log, next, current);
      if next < current {
        InRangeSplit(log, start, next, current);
      } else {
        InRangeEmpty(log, next, current);
        assert InRange(log, start, current) + [] == InRange(log, start, current);
      }
      IdsAppend(InRange(log, start, w.to), InRange(log, next, current));
    }
  }

  /** Every event of the log whose block lies in `[from, to)` is returned for that span. */
  lemma {:induction false} InRangeHas(log: seq<LoggedEvent>, from: nat, to: nat, i: nat)
    requires i < |log| && from <= log[i].block < to
    ensures log[i].event in InRange(log, from, to)
  {
    if i > 0 {
      InRangeHas(log[1..], from, to, i - 1);
      assert log[1..][i - 1] == log[i];
    }
  }

  /** Under the closed reading, an event in a block shared by two consecutive
      windows (block `start + 10000 * k` for k >= 1) is returned by the query
      for window k - 1 and again by the query for window k. */
  lemma SharedBlockReturnedTwice(log: seq<LoggedEvent>, start: nat, current: nat, k: nat, i: nat)
    requires 0 < k < |Windows(start, current)| && i < |log|
    requires log[i].block == start + k * BlockBatchSize
    ensures var ws := Windows(start, current);
      log[i].event in Inclusive(log)(ws[k - 1].from, ws[k - 1].to).value &&
      log[i].event in Inclusive(log)(ws[k].from, ws[k].to).value
  {
    var ws := Windows(start, current);
    WindowAt(start, current, k - 1);
    WindowAt(start, current, k);
    assert ws[k - 1].to == log[i].block by {
      assert (k - 1) * BlockBatchSize + BlockBatchSize == k * BlockBatchSize;
    }
    InRangeHas(log, ws[k - 1].from, ws[k - 1].to + 1, i);
    InRangeHas(log, ws[k].from, ws[k].to + 1, i);
  }

  /** Under the closed reading the shared endpoint is queried twice: an event
      in block 10,000 of a storage deployed at block 0 is collected twice when
      the chain is at block 20,000, though one query over the whole range
      returns it once. */
  lemma SharedEndpointCollectedTwice()
    ensures Inclusive([LoggedEvent(10000, MemberRegistered(7, 0))])(0, 20000)
         == Some([MemberRegistered(7, 0)])
    ensures Collected(Windows(0, 20000), Inclusive([LoggedEvent(10000, MemberRegistered(7, 0))]))
         == Some([7, 7])
  {
    var log := [LoggedEvent(10000, MemberRegistered(7, 0))];
    var source := Inclusive(log);
    assert Windows(20000, 20000) == [];
    assert Windows(10000, 20000) == [Window(10000, 20000)];
    assert Windows(0, 20000) == [Window(0, 10000), Window(10000, 20000)];
    assert log[1..] == [];
    assert InRange(log, 0, 10001) == [log[0].event] + InRange(log[1..], 0, 10001);
    assert InRange(log, 10000, 20001) == [log[0].event] + InRange(log[1..], 10000, 20001);
    assert InRange(log[1..], 0, 10001) == [] && InRange(log[1..], 10000, 20001) == [];
    assert InRange(log, 0, 10001) == [MemberRegistered(7, 0)];
    assert InRange(log, 10000, 20001) == [MemberRegistered(7, 0)];
    assert Ids([MemberRegistered(7, 0)]) == [7];
    assert source(0, 10000) == Some([MemberRegistered(7, 0)]);
    assert source(10000, 20000) == Some([MemberRegistered(7, 0)]);
    CollectedSingle(Window(0, 10000), source);
    CollectedSnoc([Window(0, 10000)], Window(10000, 20000), source);
    assert [Window(0, 10000)] + [Window(10000, 20000)] == Windows(0, 20000);
    assert Collected([Window(0, 10000)], source) == Some([7]);
    assert [7] + [7] == [7, 7];
  }
}
