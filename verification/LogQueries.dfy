/**
 * Reading transfer logs: block ranges, bisection of refused ranges, and batches of addresses.
 */
module LogQueries {
  import opened Wrappers

  /** `id` stands for the transaction hash and the index of the log. */
  datatype Log = Log(contract: string, destination: string, amount: nat, id: nat)

  /** The transfer logs of each block. */
  type Chain = seq<seq<Log>>

  datatype Refusal = RangeLimit | OtherFailure

  /** Whether a query for some destinations and an inclusive block range is answered. */
  type Provider = (seq<string>, int, int) -> Option<Refusal>

  datatype Range = Range(from: int, to: int)

  function Select(logs: seq<Log>, tokens: seq<string>, destinations: seq<string>): seq<Log> {
    if logs == [] then []
    else if logs[0].contract in tokens && logs[0].destination in destinations
    then [logs[0]] + Select(logs[1..], tokens, destinations)
    else Select(logs[1..], tokens, destinations)
  }

  function InBlock(chain: Chain, tokens: seq<string>, destinations: seq<string>, b: int): seq<Log> {
    if 0 <= b < |chain| then Select(chain[b], tokens, destinations) else []
  }

  /** Every matching log of an inclusive range, in block order: what an answered query returns. */
  function LogsIn(chain: Chain, tokens: seq<string>, destinations: seq<string>, from: int, to: int): seq<Log>
    decreases (to - from)
  {
    if from > to then []
    else LogsIn(chain, tokens, destinations, from, to - 1) + InBlock(chain, tokens, destinations, to)
  }

  lemma {:induction false} Regroup(a: seq<Log>, b: seq<Log>, c: seq<Log>)
    ensures a + (b + c) == (a + b) + c
  {
  }

  lemma {:induction false} LogsSplit(chain: Chain, tokens: seq<string>, destinations: seq<string>, from: int, mid: int,
                                     to: int)
    requires from <= mid + 1 <= to + 1
    ensures LogsIn(chain, tokens, destinations, from, mid) + LogsIn(chain, tokens, destinations, mid + 1, to) ==
            LogsIn(chain, tokens, destinations, from, to)
    decreases (to - mid)
  {
    if mid < to {
      LogsSplit(chain, tokens, destinations, from, mid, to - 1);
      Regroup(LogsIn(chain, tokens, destinations, from, mid), LogsIn(chain, tokens, destinations, mid + 1, to - 1),
              InBlock(chain, tokens, destinations, to));
    } else {
      assert LogsIn(chain, tokens, destinations, mid + 1, to) == [];
    }
  }

  // ----- bisection

  /** Both halves, or the first failure. */
  function Joined(left: Result<seq<Log>, Refusal>, right: Result<seq<Log>, Refusal>): Result<seq<Log>, Refusal> {
    if left.Err? then left else if right.Err? then right else Ok(left.value + right.value)
  }

  function Middle(from: int, to: int): int { from + (to - from) / 2 }

  function FetchTransferLogs(p: Provider, chain: Chain, tokens: seq<string>, destinations: seq<string>, from: int,
                             to: int)
    : Result<seq<Log>, Refusal>
    decreases (to - from)
  {
    match p(destinations, from, to)
    case None => Ok(LogsIn(chain, tokens, destinations, from, to))
    case Some(refusal) =>
      var mid := Middle(from, to);
      if refusal != RangeLimit || from >= to || mid <= from then Err(refusal)
      else Joined(FetchTransferLogs(p, chain, tokens, destinations, from, mid),
                  FetchTransferLogs(p, chain, tokens, destinations, mid + 1, to))
  }

  /** An answer, if there is one, holds exactly the logs of the range. */
  ghost predicate Exact(r: Result<seq<Log>, Refusal>, chain: Chain, tokens: seq<string>, destinations: seq<string>,
                        from: int, to: int)
  {
    r.Ok? ==> r.value == LogsIn(chain, tokens, destinations, from, to)
  }

  /** A range that was refused and fetched after all is the two halves, one after the other. */
  lemma {:induction false} BothHalvesFetched(p: Provider, chain: Chain, tokens: seq<string>, destinations: seq<string>,
                                             from: int, to: int)
    requires FetchTransferLogs(p, chain, tokens, destinations, from, to).Ok? && p(destinations, from, to).Some?
    ensures var mid := Middle(from, to);
            var left := FetchTransferLogs(p, chain, tokens, destinations, from, mid);
            var right := FetchTransferLogs(p, chain, tokens, destinations, mid + 1, to);
            && from < mid < to && left.Ok? && right.Ok?
            && FetchTransferLogs(p, chain, tokens, destinations, from, to).value == left.value + right.value
  {
  }

  /** However a range is cut up, what comes back is exactly the logs of the range, in order. */
  lemma {:induction false} FetchIsExact(p: Provider, chain: Chain, tokens: seq<string>, destinations: seq<string>,
                                        from: int, to: int)
    ensures Exact(FetchTransferLogs(p, chain, tokens, destinations, from, to), chain, tokens, destinations, from, to)
    decreases (to - from)
  {
    if FetchTransferLogs(p, chain, tokens, destinations, from, to).Ok? && p(destinations, from, to).Some? {
      var mid := Middle(from, to);
      BothHalvesFetched(p, chain, tokens, destinations, from, to);
      FetchIsExact(p, chain, tokens, destinations, from, mid);
      FetchIsExact(p, chain, tokens, destinations, mid + 1, to);
      LogsSplit(chain, tokens, destinations, from, mid, to);
    }
  }

  /** The ranges the provider answered. */
  function Answered(p: Provider, destinations: seq<string>, from: int, to: int): seq<Range>
    decreases (to - from)
  {
    if p(destinations, from, to).None? then [Range(from, to)]
    else
      var mid := Middle(from, to);
      if from >= to || mid <= from then []
      else Answered(p, destinations, from, mid) + Answered(p, destinations, mid + 1, to)
  }

  function TimesCovered(ranges: seq<Range>, b: int): nat {
    if ranges == [] then 0 else (if ranges[0].from <= b <= ranges[0].to then 1 else 0) + TimesCovered(ranges[1..], b)
  }

  lemma {:induction false} CoveredConcat(a: seq<Range>, c: seq<Range>, b: int)
    ensures TimesCovered(a + c, b) == TimesCovered(a, b) + TimesCovered(c, b)
    decreases |a|
  {
    if a == [] {
      assert a + c == c;
    } else {
      assert (a + c)[1..] == a[1..] + c;
      CoveredConcat(a[1..], c, b);
    }
  }

  lemma {:induction false} AnsweredHalves(p: Provider, destinations: seq<string>, from: int, to: int)
    requires p(destinations, from, to).Some? && from < Middle(from, to) < to
    ensures Answered(p, destinations, from, to) ==
            Answered(p, destinations, from, Middle(from, to)) + Answered(p, destinations, Middle(from, to) + 1, to)
  {
  }

  ghost predicate CoveredOnce(ranges: seq<Range>, from: int, to: int, b: int) {
    TimesCovered(ranges, b) == if from <= b <= to then 1 else 0
  }

  lemma {:induction false} HalvesCoverOnce(left: seq<Range>, right: seq<Range>, from: int, mid: int, to: int, b: int)
    requires from <= mid < to && CoveredOnce(left, from, mid, b) && CoveredOnce(right, mid + 1, to, b)
    ensures CoveredOnce(left + right, from, to, b)
  {
    CoveredConcat(left, right, b);
  }

  /** A successful fetch has asked for every block of the range once and for no other. */
  lemma {:induction false} EachBlockOnce(p: Provider, chain: Chain, tokens: seq<string>, destinations: seq<string>,
                                         from: int, to: int, b: int)
    requires FetchTransferLogs(p, chain, tokens, destinations, from, to).Ok? && from <= to
    ensures CoveredOnce(Answered(p, destinations, from, to), from, to, b)
    decreases (to - from)
  {
    if p(destinations, from, to).None? {
      assert Answered(p, destinations, from, to) == [Range(from, to)];
      assert [Range(from, to)][1..] == [];
    } else {
      var mid := Middle(from, to);
      BothHalvesFetched(p, chain, tokens, destinations, from, to);
      AnsweredHalves(p, destinations, from, to);
      EachBlockOnce(p, chain, tokens, destinations, from, mid, b);
      EachBlockOnce(p, chain, tokens, destinations, mid + 1, to, b);
      HalvesCoverOnce(Answered(p, destinations, from, mid), Answered(p, destinations, mid + 1, to), from, mid, to, b);
    }
  }

  /** Refuses nothing but long ranges, and answers every range of two blocks or less. */
  ghost predicate AnswersPairs(p: Provider, destinations: seq<string>) {
    forall a, b :: p(destinations, a, b) != Some(OtherFailure) && (b <= a + 1 ==> p(destinations, a, b).None?)
  }

  lemma {:induction false} FetchSucceeds(p: Provider, chain: Chain, tokens: seq<string>, destinations: seq<string>,
                                         from: int, to: int)
    requires AnswersPairs(p, destinations)
    ensures FetchTransferLogs(p, chain, tokens, destinations, from, to).Ok?
    decreases (to - from)
  {
    var mid := Middle(from, to);
    if p(destinations, from, to).Some? {
      FetchSucceeds(p, chain, tokens, destinations, from, mid);
      FetchSucceeds(p, chain, tokens, destinations, mid + 1, to);
    }
  }

  /** Answers exactly the ranges of at most `limit` blocks. */
  ghost predicate LengthLimited(p: Provider, destinations: seq<string>, limit: nat) {
    forall a, b :: p(destinations, a, b) == if b - a + 1 <= limit then None else Some(RangeLimit)
  }

  /** Two blocks are not bisected: behind a limit of one block every longer range fails. */
  lemma {:induction false} FetchUnderALimit(p: Provider, chain: Chain, tokens: seq<string>, destinations: seq<string>,
                                            from: int, to: int, limit: nat)
    requires LengthLimited(p, destinations, limit) && from <= to
    ensures FetchTransferLogs(p, chain, tokens, destinations, from, to).Ok? <==> limit >= 2 || to - from + 1 <= limit
    decreases (to - from)
  {
    if limit >= 2 {
      FetchSucceeds(p, chain, tokens, destinations, from, to);
    } else {
      var mid := Middle(from, to);
      if from < mid {
        FetchUnderALimit(p, chain, tokens, destinations, from, mid, limit);
      }
    }
  }

  // ----- ranges and batches

  /** The ranges follow each other from `from` to `to`, none empty and none longer than the limit. */
  predicate Tiles(ranges: seq<Range>, from: int, to: int, maxRange: nat)
    decreases |ranges|
  {
    if ranges == [] then from > to
    else
      && ranges[0].from == from && from <= ranges[0].to <= to && ranges[0].to - from < maxRange
      && Tiles(ranges[1..], ranges[0].to + 1, to, maxRange)
  }

  lemma {:induction false} TilesSnoc(ranges: seq<Range>, from: int, next: int, r: Range, maxRange: nat)
    requires Tiles(ranges, from, next - 1, maxRange) && from <= next == r.from <= r.to && r.to - r.from < maxRange
    ensures Tiles(ranges + [r], from, r.to, maxRange)
    decreases |ranges|
  {
    if ranges != [] {
      assert (ranges + [r])[1..] == ranges[1..] + [r];
      TilesSnoc(ranges[1..], ranges[0].to + 1, next, r, maxRange);
    } else {
      assert ([] + [r])[1..] == [];
    }
  }

  method BlockRanges(fromBlock: nat, toBlock: int, maxRange: nat) returns (ranges: seq<Range>)
    requires maxRange >= 1
    ensures Tiles(ranges, fromBlock, toBlock, maxRange)
  {
    ranges := [];
    var from: int := fromBlock;
    while from <= toBlock
      invariant fromBlock <= from
      invariant from > fromBlock ==> from <= toBlock + maxRange
      invariant Tiles(ranges, fromBlock,
                      if from <= toBlock + 1 || from == fromBlock then from - 1 else toBlock, maxRange)
      decreases toBlock + maxRange - from
    {
      var end := if from + maxRange - 1 <= toBlock then from + maxRange - 1 else toBlock;
      TilesSnoc(ranges, fromBlock, from, Range(from, end), maxRange);
      ranges := ranges + [Range(from, end)];
      from := from + maxRange;
    }
    if fromBlock > toBlock {
      assert ranges == [];
    }
  }

  /** The results of the ranges, one after another. */
  function OverRanges(chain: Chain, tokens: seq<string>, destinations: seq<string>, ranges: seq<Range>): seq<Log> {
    if ranges == [] then []
    else
      LogsIn(chain, tokens, destinations, ranges[0].from, ranges[0].to) +
      OverRanges(chain, tokens, destinations, ranges[1..])
  }

  lemma {:induction false} RangesAreTheWhole(chain: Chain, tokens: seq<string>, destinations: seq<string>,
                                             ranges: seq<Range>, from: int, to: int, maxRange: nat)
    requires Tiles(ranges, from, to, maxRange)
    ensures OverRanges(chain, tokens, destinations, ranges) == LogsIn(chain, tokens, destinations, from, to)
    decreases |ranges|
  {
    if ranges != [] {
      var end, rest := ranges[0].to, ranges[1..];
      RangesAreTheWhole(chain, tokens, destinations, rest, end + 1, to, maxRange);
      LogsSplit(chain, tokens, destinations, from, end, to);
      assert OverRanges(chain, tokens, destinations, ranges) ==
             LogsIn(chain, tokens, destinations, from, end) + OverRanges(chain, tokens, destinations, rest);
    }
  }

  lemma {:induction false} OverRangesSnoc(chain: Chain, tokens: seq<string>, destinations: seq<string>,
                                          ranges: seq<Range>, r: Range)
    ensures OverRanges(chain, tokens, destinations, ranges + [r]) ==
            OverRanges(chain, tokens, destinations, ranges) + LogsIn(chain, tokens, destinations, r.from, r.to)
    decreases |ranges|
  {
    if ranges != [] {
      assert (ranges + [r])[1..] == ranges[1..] + [r];
      OverRangesSnoc(chain, tokens, destinations, ranges[1..], r);
    } else {
      assert ([] + [r])[1..] == [];
    }
  }

  ghost predicate Disjoint(a: seq<string>, b: seq<string>) {
    forall x | x in a :: x !in b
  }

  lemma {:induction false} SelectSplits(logs: seq<Log>, tokens: seq<string>, a: seq<string>, b: seq<string>)
    requires Disjoint(a, b)
    ensures multiset(Select(logs, tokens, a + b)) ==
            multiset(Select(logs, tokens, a)) + multiset(Select(logs, tokens, b))
    decreases |logs|
  {
    if logs != [] {
      SelectSplits(logs[1..], tokens, a, b);
      assert logs[0].destination in a + b <==> logs[0].destination in a || logs[0].destination in b;
    }
  }

  /** The logs of two batches with no address in common are the logs of both together. */
  lemma {:induction false} BatchesAdd(chain: Chain, tokens: seq<string>, a: seq<string>, b: seq<string>, from: int,
                                      to: int)
    requires Disjoint(a, b)
    ensures multiset(LogsIn(chain, tokens, a + b, from, to)) ==
            multiset(LogsIn(chain, tokens, a, from, to)) + multiset(LogsIn(chain, tokens, b, from, to))
    decreases (to - from)
  {
    if from <= to {
      BatchesAdd(chain, tokens, a, b, from, to - 1);
      BlockSplits(chain, tokens, a, b, to);
    }
  }

  lemma {:induction false} BlockSplits(chain: Chain, tokens: seq<string>, a: seq<string>, b: seq<string>, block: int)
    requires Disjoint(a, b)
    ensures multiset(InBlock(chain, tokens, a + b, block)) ==
            multiset(InBlock(chain, tokens, a, block)) + multiset(InBlock(chain, tokens, b, block))
  {
    if 0 <= block < |chain| {
      SelectSplits(chain[block], tokens, a, b);
    }
  }

  lemma {:induction false} NoAddresses(chain: Chain, tokens: seq<string>, from: int, to: int)
    ensures LogsIn(chain, tokens, [], from, to) == []
    decreases (to - from)
  {
    if from <= to {
      NoAddresses(chain, tokens, from, to - 1);
      if 0 <= to < |chain| {
        NothingSelected(chain[to], tokens);
      }
    }
  }

  lemma {:induction false} NothingSelected(logs: seq<Log>, tokens: seq<string>)
    ensures Select(logs, tokens, []) == []
  {
    if logs != [] {
      NothingSelected(logs[1..], tokens);
    }
  }

  ghost predicate DistinctAddresses(addresses: seq<string>) {
    forall i, j | 0 <= i < j < |addresses| :: addresses[i] != addresses[j]
  }

  lemma {:induction false} RefusedBatch(p: Provider, chain: Chain, tokens: seq<string>, batch: seq<string>, r: Range)
    ensures FetchTransferLogs(p, chain, tokens, batch, r.from, r.to).Err? ==> !AnswersPairs(p, batch)
  {
    if AnswersPairs(p, batch) {
      FetchSucceeds(p, chain, tokens, batch, r.from, r.to);
    }
  }

  /** All ranges of one batch. */
  method ScanBatch(p: Provider, chain: Chain, tokens: seq<string>, batch: seq<string>, ranges: seq<Range>,
                   ghost from: int, ghost to: int, ghost maxRange: nat)
    returns (r: Result<seq<Log>, Refusal>)
    requires Tiles(ranges, from, to, maxRange)
    ensures r.Ok? ==> r.value == LogsIn(chain, tokens, batch, from, to)
    ensures AnswersPairs(p, batch) ==> r.Ok?
  {
    var logs := [];
    for i := 0 to |ranges|
      invariant logs == OverRanges(chain, tokens, batch, ranges[..i])
    {
      var fetched := FetchTransferLogs(p, chain, tokens, batch, ranges[i].from, ranges[i].to);
      if fetched.Err? {
        RefusedBatch(p, chain, tokens, batch, ranges[i]);
        return Err(fetched.error);
      }
      FetchIsExact(p, chain, tokens, batch, ranges[i].from, ranges[i].to);
      OverRangesSnoc(chain, tokens, batch, ranges[..i], ranges[i]);
      assert ranges[..i + 1] == ranges[..i] + [ranges[i]];
      logs := logs + fetched.value;
    }
    assert ranges[..|ranges|] == ranges;
    RangesAreTheWhole(chain, tokens, batch, ranges, from, to, maxRange);
    return Ok(logs);
  }

  ghost predicate AnswersEveryPair(p: Provider) {
    forall batch :: AnswersPairs(p, batch)
  }

  /** The logs of a range, in some order. */
  ghost predicate SameLogs(logs: seq<Log>, chain: Chain, tokens: seq<string>, addresses: seq<string>, from: int,
                           to: int)
  {
    multiset(logs) == multiset(LogsIn(chain, tokens, addresses, from, to))
  }

  // ----- batches of addresses

  /** The addresses in slices of at most `batchSize`. */
  function Batches(addresses: seq<string>, batchSize: nat): seq<seq<string>>
    requires batchSize >= 1
    decreases |addresses|
  {
    if addresses == [] then []
    else if |addresses| <= batchSize then [addresses]
    else [addresses[..batchSize]] + Batches(addresses[batchSize..], batchSize)
  }

  function Flat(batches: seq<seq<string>>): seq<string> {
    if batches == [] then [] else Flat(batches[..|batches| - 1]) + batches[|batches| - 1]
  }

  lemma {:induction false} FlatCons(batch: seq<string>, batches: seq<seq<string>>)
    ensures Flat([batch] + batches) == batch + Flat(batches)
    decreases |batches|
  {
    var all := [batch] + batches;
    if batches == [] {
      assert all[..0] == [] && [] + batch == batch && batch + [] == batch;
    } else {
      var n := |batches| - 1;
      FlatCons(batch, batches[..n]);
      assert all[..|all| - 1] == [batch] + batches[..n];
      assert batch + (Flat(batches[..n]) + batches[n]) == (batch + Flat(batches[..n])) + batches[n];
    }
  }

  lemma {:induction false} BatchesAreTheAddresses(addresses: seq<string>, batchSize: nat)
    requires batchSize >= 1
    ensures Flat(Batches(addresses, batchSize)) == addresses
    decreases |addresses|
  {
    if 0 < |addresses| <= batchSize {
      FlatCons(addresses, []);
      assert [addresses] + [] == [addresses] && addresses + [] == addresses;
    } else if addresses != [] {
      BatchesAreTheAddresses(addresses[batchSize..], batchSize);
      FlatCons(addresses[..batchSize], Batches(addresses[batchSize..], batchSize));
      assert addresses[..batchSize] + addresses[batchSize..] == addresses;
    }
  }

  /** The logs of the batches, one after another. */
  function OverBatches(chain: Chain, tokens: seq<string>, batches: seq<seq<string>>, from: int, to: int): seq<Log> {
    if batches == [] then []
    else
      OverBatches(chain, tokens, batches[..|batches| - 1], from, to) +
        LogsIn(chain, tokens, batches[|batches| - 1], from, to)
  }

  /** The logs of a scan in the order they arrive: batch after batch of addresses, each over the whole range. */
  function ScanOrder(chain: Chain, tokens: seq<string>, addresses: seq<string>, batchSize: nat, from: int, to: int)
    : seq<Log>
    requires batchSize >= 1
  {
    OverBatches(chain, tokens, Batches(addresses, batchSize), from, to)
  }

  lemma {:induction false} LastBatchIsApart(front: seq<string>, last: seq<string>)
    requires DistinctAddresses(front + last)
    ensures DistinctAddresses(front) && Disjoint(front, last)
  {
    var all := front + last;
    forall i, j | 0 <= i < |front| && 0 <= j < |last| ensures front[i] != last[j] {
      assert all[i] == front[i] && all[|front| + j] == last[j];
    }
    forall i, j | 0 <= i < j < |front| ensures front[i] != front[j] {
      assert all[i] == front[i] && all[j] == front[j];
    }
  }

  lemma {:induction false} BatchesAreComplete(chain: Chain, tokens: seq<string>, batches: seq<seq<string>>, from: int,
                                              to: int)
    requires DistinctAddresses(Flat(batches))
    ensures SameLogs(OverBatches(chain, tokens, batches, from, to), chain, tokens, Flat(batches), from, to)
    decreases |batches|
  {
    if batches == [] {
      NoAddresses(chain, tokens, from, to);
    } else {
      var front, last := batches[..|batches| - 1], batches[|batches| - 1];
      LastBatchIsApart(Flat(front), last);
      BatchesAreComplete(chain, tokens, front, from, to);
      BatchesAdd(chain, tokens, Flat(front), last, from, to);
    }
  }

  /** With no address listed twice, every log of every (address, block) pair arrives once. */
  lemma {:induction false} ScanIsComplete(chain: Chain, tokens: seq<string>, addresses: seq<string>, batchSize: nat,
                                          from: int, to: int)
    requires batchSize >= 1 && DistinctAddresses(addresses)
    ensures SameLogs(ScanOrder(chain, tokens, addresses, batchSize, from, to), chain, tokens, addresses, from, to)
  {
    BatchesAreTheAddresses(addresses, batchSize);
    BatchesAreComplete(chain, tokens, Batches(addresses, batchSize), from, to);
  }

  // ----- the logs of one contract and one address

  lemma {:induction false} SelectConcat(a: seq<Log>, b: seq<Log>, tokens: seq<string>, destinations: seq<string>)
    ensures Select(a + b, tokens, destinations) == Select(a, tokens, destinations) + Select(b, tokens, destinations)
    decreases |a|
  {
    if a == [] {
      assert a + b == b;
    } else {
      assert (a + b)[1..] == a[1..] + b;
      SelectConcat(a[1..], b, tokens, destinations);
    }
  }

  lemma {:induction false} SelectTwice(logs: seq<Log>, tokens: seq<string>, destinations: seq<string>, a: string,
                                       d: string)
    ensures Select(Select(logs, tokens, destinations), [a], [d]) ==
            if a in tokens && d in destinations then Select(logs, [a], [d]) else []
    decreases |logs|
  {
    if logs != [] {
      SelectTwice(logs[1..], tokens, destinations, a, d);
      var rest := Select(logs[1..], tokens, destinations);
      assert ([logs[0]] + rest)[1..] == rest;
    }
  }

  lemma {:induction false} OneOfRange(chain: Chain, tokens: seq<string>, destinations: seq<string>, from: int, to: int,
                                      a: string, d: string)
    ensures Select(LogsIn(chain, tokens, destinations, from, to), [a], [d]) ==
            if a in tokens && d in destinations then LogsIn(chain, [a], [d], from, to) else []
    decreases (to - from)
  {
    if from <= to {
      OneOfRange(chain, tokens, destinations, from, to - 1, a, d);
      SelectConcat(LogsIn(chain, tokens, destinations, from, to - 1), InBlock(chain, tokens, destinations, to),
                   [a], [d]);
      if 0 <= to < |chain| {
        SelectTwice(chain[to], tokens, destinations, a, d);
      }
    }
  }

  lemma {:induction false} OneOfBatches(chain: Chain, tokens: seq<string>, batches: seq<seq<string>>, from: int,
                                        to: int, a: string, d: string)
    requires DistinctAddresses(Flat(batches))
    ensures Select(OverBatches(chain, tokens, batches, from, to), [a], [d]) ==
            if a in tokens && d in Flat(batches) then LogsIn(chain, [a], [d], from, to) else []
    decreases |batches|
  {
    if batches != [] {
      var front, last := batches[..|batches| - 1], batches[|batches| - 1];
      LastBatchIsApart(Flat(front), last);
      OneOfBatches(chain, tokens, front, from, to, a, d);
      OneOfRange(chain, tokens, last, from, to, a, d);
      SelectConcat(OverBatches(chain, tokens, front, from, to), LogsIn(chain, tokens, last, from, to), [a], [d]);
    }
  }

  /** Whatever else a scan asks for, the logs of one contract to one address come in chain order. */
  lemma {:induction false} OneOfScan(chain: Chain, tokens: seq<string>, addresses: seq<string>, batchSize: nat,
                                     from: int, to: int, a: string, d: string)
    requires batchSize >= 1 && DistinctAddresses(addresses)
    ensures Select(ScanOrder(chain, tokens, addresses, batchSize, from, to), [a], [d]) ==
            if a in tokens && d in addresses then LogsIn(chain, [a], [d], from, to) else []
  {
    BatchesAreTheAddresses(addresses, batchSize);
    OneOfBatches(chain, tokens, Batches(addresses, batchSize), from, to, a, d);
  }

  /** Slicing has come to an offset: the batches so far, with those of what is left, are all batches. */
  ghost predicate SlicedTo(addresses: seq<string>, batchSize: nat, offset: nat, done: seq<seq<string>>)
    requires batchSize >= 1
  {
    if offset < |addresses| then done + Batches(addresses[offset..], batchSize) == Batches(addresses, batchSize)
    else done == Batches(addresses, batchSize)
  }

  lemma {:induction false} SlicedOn(addresses: seq<string>, batchSize: nat, offset: nat, done: seq<seq<string>>)
    requires batchSize >= 1 && offset < |addresses| && SlicedTo(addresses, batchSize, offset, done)
    ensures var batch := addresses[offset..Least(offset + batchSize, |addresses|)];
            SlicedTo(addresses, batchSize, offset + batchSize, done + [batch])
  {
    var left := addresses[offset..];
    if |left| <= batchSize {
      assert left == addresses[offset..Least(offset + batchSize, |addresses|)];
    } else {
      assert left[..batchSize] == addresses[offset..offset + batchSize];
      assert left[batchSize..] == addresses[offset + batchSize..];
      var rest := Batches(addresses[offset + batchSize..], batchSize);
      assert (done + [left[..batchSize]]) + rest == done + ([left[..batchSize]] + rest);
    }
  }

  /** The logs of the batches up to an offset. */
  ghost predicate Collected(chain: Chain, tokens: seq<string>, addresses: seq<string>, batchSize: nat, from: int,
                            to: int, offset: nat, logs: seq<Log>)
    requires batchSize >= 1
  {
    exists done :: SlicedTo(addresses, batchSize, offset, done) && logs == OverBatches(chain, tokens, done, from, to)
  }

  lemma {:induction false} CollectedOn(chain: Chain, tokens: seq<string>, addresses: seq<string>, batchSize: nat,
                                       from: int, to: int, offset: nat, logs: seq<Log>, batch: seq<string>)
    requires batchSize >= 1 && offset < |addresses| &&
             Collected(chain, tokens, addresses, batchSize, from, to, offset, logs)
    requires batch == addresses[offset..Least(offset + batchSize, |addresses|)]
    ensures Collected(chain, tokens, addresses, batchSize, from, to, offset + batchSize,
                      logs + LogsIn(chain, tokens, batch, from, to))
  {
    var done :| SlicedTo(addresses, batchSize, offset, done) && logs == OverBatches(chain, tokens, done, from, to);
    SlicedOn(addresses, batchSize, offset, done);
  }

  lemma {:induction false} NoneCollected(chain: Chain, tokens: seq<string>, addresses: seq<string>, batchSize: nat,
                                         from: int, to: int)
    requires batchSize >= 1
    ensures Collected(chain, tokens, addresses, batchSize, from, to, 0, [])
  {
    assert OverBatches(chain, tokens, [], from, to) == [];
  }

  /** The batch at an offset, over all ranges, added to what the batches before it have found. */
  method AddBatch(p: Provider, chain: Chain, tokens: seq<string>, addresses: seq<string>, batchSize: nat,
                  ranges: seq<Range>, offset: nat, logs: seq<Log>, ghost from: int, ghost to: int, ghost maxRange: nat)
    returns (r: Result<seq<Log>, Refusal>)
    requires batchSize >= 1 && Tiles(ranges, from, to, maxRange) && offset < |addresses|
    requires Collected(chain, tokens, addresses, batchSize, from, to, offset, logs)
    ensures r.Ok? ==> Collected(chain, tokens, addresses, batchSize, from, to, offset + batchSize, r.value)
    ensures AnswersEveryPair(p) ==> r.Ok?
  {
    var batch := addresses[offset..Least(offset + batchSize, |addresses|)];
    CollectedOn(chain, tokens, addresses, batchSize, from, to, offset, logs, batch);
    r := ScanBatch(p, chain, tokens, batch, ranges, from, to, maxRange);
    if r.Ok? {
      r := Ok(logs + r.value);
    }
  }

  /** All batches over the same ranges. */
  method ScanBatches(p: Provider, chain: Chain, tokens: seq<string>, addresses: seq<string>, batchSize: nat,
                     ranges: seq<Range>, ghost from: int, ghost to: int, ghost maxRange: nat)
    returns (r: Result<seq<Log>, Refusal>)
    requires batchSize >= 1 && Tiles(ranges, from, to, maxRange)
    ensures r.Ok? ==> r.value == ScanOrder(chain, tokens, addresses, batchSize, from, to)
    ensures AnswersEveryPair(p) ==> r.Ok?
  {
    var offset := 0;
    r := Ok([]);
    NoneCollected(chain, tokens, addresses, batchSize, from, to);
    while offset < |addresses| && r.Ok?
      invariant r.Ok? ==> Collected(chain, tokens, addresses, batchSize, from, to, offset, r.value)
      invariant AnswersEveryPair(p) ==> r.Ok?
    {
      r := AddBatch(p, chain, tokens, addresses, batchSize, ranges, offset, r.value, from, to, maxRange);
      offset := offset + batchSize;
    }
  }

  /**
   * The scan of a range for a list of addresses, batch by batch: its logs in their order, which are every log of
   * every (address, block) pair once; and it succeeds if the provider answers pairs of blocks.
   */
  method ScanLogs(p: Provider, chain: Chain, tokens: seq<string>, addresses: seq<string>, batchSize: nat,
                  fromBlock: nat, toBlock: int, maxRange: nat)
    returns (r: Result<seq<Log>, Refusal>)
    requires batchSize >= 1 && maxRange >= 1
    ensures r.Ok? ==> r.value == ScanOrder(chain, tokens, addresses, batchSize, fromBlock, toBlock)
    ensures r.Ok? && DistinctAddresses(addresses) ==> SameLogs(r.value, chain, tokens, addresses, fromBlock, toBlock)
    ensures AnswersEveryPair(p) ==> r.Ok?
  {
    var ranges := BlockRanges(fromBlock, toBlock, maxRange);
    r := ScanBatches(p, chain, tokens, addresses, batchSize, ranges, fromBlock, toBlock, maxRange);
    if DistinctAddresses(addresses) {
      ScanIsComplete(chain, tokens, addresses, batchSize, fromBlock, toBlock);
    }
  }

  function Least(a: nat, b: nat): nat { if a <= b then a else b }
}
