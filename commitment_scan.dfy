/** `getRlnV1Commitments`: walks the block windows of the v1 storage contract,
    queries the `MemberRegistered` events of each, and appends every event's
    commitment to one list, window by window. */
module CommitmentScan {
  import opened Wrappers
  import opened RlnTypes
  import opened BlockWindows

  /** The commitments collected from the windows `ws`, queried in order; None
      as soon as one of the queries fails. */
  function Collected(ws: seq<Window>, source: EventSource): Option<seq<Commitment>>
    decreases |ws|
  {
    if ws == [] then Some([])
    else
      match Collected(ws[..|ws| - 1], source)
      case None => None
      case Some(prefix) =>
        match source(ws[|ws| - 1].from, ws[|ws| - 1].to)
        case None => None
        case Some(events) => Some(prefix + Ids(events))
  }

  /** Every window of `ws` is answered by the event source. */
  predicate AllAnswered(ws: seq<Window>, source: EventSource)
  {
    forall k :: 0 <= k < |ws| ==> source(ws[k].from, ws[k].to).Some?
  }

  function Join(a: Option<seq<Commitment>>, b: Option<seq<Commitment>>): Option<seq<Commitment>>
  {
    if a.Some? && b.Some? then Some(a.value + b.value) else None
  }

  /** Scanning `ws` then `vs` yields the commitments of `ws` followed by those
      of `vs`: nothing is dropped or reordered across windows. */
  lemma {:induction false} CollectedAppend(ws: seq<Window>, vs: seq<Window>, source: EventSource)
    ensures Collected(ws + vs, source) == Join(Collected(ws, source), Collected(vs, source))
    decreases |vs|
  {
    if vs == [] {
      assert ws + vs == ws;
      if Collected(ws, source).Some? {
        assert Collected(ws, source).value + [] == Collected(ws, source).value;
      }
    } else {
      var front, last := vs[..|vs| - 1], vs[|vs| - 1];
      assert (ws + vs)[..|ws + vs| - 1] == ws + front;
      assert (ws + vs)[|ws + vs| - 1] == last;
      CollectedAppend(ws, front, source);
      if Collected(ws, source).Some? && Collected(front, source).Some? && source(last.from, last.to).Some? {
        var a, b, c := Collected(ws, source).value, Collected(front, source).value, source(last.from, last.to).value;
        assert a + b + Ids(c) == a + (b + Ids(c));
      }
    }
  }

  /** Scanning one more window extends the list by that window's ids. */
  lemma CollectedSnoc(ws: seq<Window>, w: Window, source: EventSource)
    ensures Collected(ws + [w], source)
         == if Collected(ws, source).Some? && source(w.from, w.to).Some?
            then Some(Collected(ws, source).value + Ids(source(w.from, w.to).value))
            else None
  {
    assert (ws + [w])[..|ws|] == ws;
  }

  /** One window contributes exactly the ids of the events returned for it. */
  lemma CollectedSingle(w: Window, source: EventSource)
    ensures Collected([w], source)
         == if source(w.from, w.to).Some? then Some(Ids(source(w.from, w.to).value)) else None
  {
    assert [w][..0] == [];
    if source(w.from, w.to).Some? {
      assert [] + Ids(source(w.from, w.to).value) == Ids(source(w.from, w.to).value);
    }
  }

  /** The scan succeeds exactly when every window is answered. */
  lemma {:induction false} CollectedSomeIffAnswered(ws: seq<Window>, source: EventSource)
    ensures Collected(ws, source).Some? <==> AllAnswered(ws, source)
    decreases |ws|
  {
    if ws != [] {
      var front := ws[..|ws| - 1];
      CollectedSomeIffAnswered(front, source);
      assert forall k :: 0 <= k < |front| ==> front[k] == ws[k];
    }
  }

  /** Once a query has failed, scanning further windows cannot succeed. */
  lemma FailureIsFinal(ws: seq<Window>, rest: seq<Window>, source: EventSource)
    requires Collected(ws, source).None?
    ensures Collected(ws + rest, source).None?
  {
    CollectedAppend(ws, rest, source);
  }

  /** The inner `for (const event of events) commitments.push(...)` loop. */
  method AppendIds(commitments: seq<Commitment>, events: seq<MemberRegistered>)
    returns (r: seq<Commitment>)
    ensures r == commitments + Ids(events)
  {
    r := commitments;
    var j := 0;
    while j < |events|
      invariant 0 <= j <= |events|
      invariant r == commitments + Ids(events[..j])
    {
      assert events[..j + 1][..j] == events[..j];
      r := r + [events[j].idCommitment];
      j := j + 1;
    }
    assert events[..j] == events;
  }

  /** Both chain reads of `getRlnV1Commitments` succeeded and the current
      block number is truthy, so the window loop runs. */
  predicate Scannable(storage: V1Storage, blockNumber: Option<nat>)
  {
    storage.deployedBlockNumber.Some? && blockNumber.Some? && blockNumber.value != 0
  }

  /** The windows of a scannable storage. */
  function ScanWindows(storage: V1Storage, blockNumber: Option<nat>): seq<Window>
    requires Scannable(storage, blockNumber)
  {
    Windows(storage.deployedBlockNumber.value, blockNumber.value)
  }

  /** `getRlnV1Commitments` for the v1 storage `storage`; `blockNumber` is
      the outcome of `provider.getBlockNumber()`, read only once the
      deployment block has been read. `queried` lists the `(from, to)` pairs
      passed to `queryFilter`, in order. */
  method GetRlnV1Commitments(storage: V1Storage, blockNumber: Option<nat>)
    returns (queried: seq<Window>, r: Result<seq<Commitment>, MigrationError>)
    // the reads and the falsy-block check come before any query
    ensures storage.deployedBlockNumber.None? ==> queried == [] && r == Err(DeployedBlockReadFailed)
    ensures storage.deployedBlockNumber.Some? && blockNumber.None? ==>
      queried == [] && r == Err(BlockNumberReadFailed)
    ensures storage.deployedBlockNumber.Some? && blockNumber == Some(0) ==>
      queried == [] && r == Err(NoCurrentBlock)
    ensures Scannable(storage, blockNumber) ==> queried <= ScanWindows(storage, blockNumber)
    ensures r.Ok? <==>
      Scannable(storage, blockNumber) && Collected(ScanWindows(storage, blockNumber), storage.events).Some?
    ensures r.Ok? ==>
      queried == ScanWindows(storage, blockNumber) &&
      Collected(queried, storage.events) == Some(r.value)
    ensures r.Err? && Scannable(storage, blockNumber) ==>
      queried != [] &&
      Collected(queried[..|queried| - 1], storage.events).Some? &&
      storage.events(queried[|queried| - 1].from, queried[|queried| - 1].to).None? &&
      r.error == QueryFailed(queried[|queried| - 1])
  {
    queried := [];
    if storage.deployedBlockNumber.None? {
      return queried, Err(DeployedBlockReadFailed);
    }
    var deployed := storage.deployedBlockNumber.value;
    if blockNumber.None? {
      return queried, Err(BlockNumberReadFailed);
    }
    var currentBlockNumber := blockNumber.value;
    if currentBlockNumber == 0 {
      return queried, Err(NoCurrentBlock);
    }
    queried, r := QueryWindows(storage.events, deployed, currentBlockNumber);
  }

  /** One iteration of the window loop: the window at `i` is the next one
      of `all`, and querying it extends the collected list or ends the scan. */
  lemma ScanStep(events: EventSource, queried: seq<Window>, commitments: seq<Commitment>,
                 i: nat, current: nat, all: seq<Window>)
    requires i < current
    requires queried + Windows(i, current) == all
    requires Collected(queried, events) == Some(commitments)
    ensures var w := Window(i, Min(current, i + BlockBatchSize));
      (queried + [w]) + Windows(i + BlockBatchSize, current) == all &&
      (queried + [w])[..|queried|] == queried &&
      (events(w.from, w.to).None? ==> Collected(all, events).None?) &&
      (events(w.from, w.to).Some? ==>
         Collected(queried + [w], events) == Some(commitments + Ids(events(w.from, w.to).value)))
  {
    var w := Window(i, Min(current, i + BlockBatchSize));
    var rest := Windows(i + BlockBatchSize, current);
    assert Windows(i, current) == [w] + rest;
    assert (queried + [w]) + rest == all;
    assert (queried + [w])[..|queried|] == queried;
    CollectedSnoc(queried, w, events);
    if events(w.from, w.to).None? {
      FailureIsFinal(queried + [w], rest, events);
    }
  }

  /** The `for` loop of `getRlnV1Commitments`: queries the windows from
      `deployed` to `currentBlockNumber` in order, stopping at the first query
      that throws. */
  method QueryWindows(events: EventSource, deployed: nat, currentBlockNumber: nat)
    returns (queried: seq<Window>, r: Result<seq<Commitment>, MigrationError>)
    ensures queried <= Windows(deployed, currentBlockNumber)
    ensures r.Ok? <==> Collected(Windows(deployed, currentBlockNumber), events).Some?
    ensures r.Ok? ==> queried == Windows(deployed, currentBlockNumber) && Collected(queried, events) == Some(r.value)
    ensures r.Err? ==>
      queried != [] &&
      Collected(queried[..|queried| - 1], events).Some? &&
      events(queried[|queried| - 1].from, queried[|queried| - 1].to).None? &&
      r.error == QueryFailed(queried[|queried| - 1])
  {
    queried := [];
    ghost var all := Windows(deployed, currentBlockNumber);
    var commitments: seq<Commitment> := [];
    var i := deployed;
    while i < currentBlockNumber
      invariant queried + Windows(i, currentBlockNumber) == all
      invariant Collected(queried, events) == Some(commitments)
      decreases currentBlockNumber - i
    {
      var normalizedBatch := Min(currentBlockNumber, i + BlockBatchSize);
      var window := Window(i, normalizedBatch);
      var response := events(i, normalizedBatch);
      ScanStep(events, queried, commitments, i, currentBlockNumber, all);
      queried := queried + [window];
      if response.None? {
        return queried, Err(QueryFailed(window));
      }
      commitments := AppendIds(commitments, response.value);
      i := i + BlockBatchSize;
    }
    assert Windows(i, currentBlockNumber) == [];
    assert queried == all;
    r := Ok(commitments);
  }
}
