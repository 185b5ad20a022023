/**
 * The life of one deposit sweep.  A worker reads a snapshot of the row, decides on a plan of
 * database writes and custody calls, and carries it out one action at a time; crashes, failing
 * writes and provider webhooks may fall between any two actions.
 */
module Sweeps {
  import opened Wrappers

  type Hash = string

  datatype Family = Evm | Solana | Tron
  datatype Status = Pending | FundingGas | Broadcasting | Broadcasted | Confirmed | Blocked

  /** Only the legacy reason of an ineligible address is ever looked at again. */
  datatype Reason = NoReason | EvmOnly | OtherReason

  datatype Row = Row(status: Status, reason: Reason, attempts: nat, rawAmount: nat,
                     txHash: Option<Hash>, requestId: Option<string>, gasHash: Option<Hash>)

  /** What does not change: the wallet, the token (native if None), the treasury and the settings. */
  datatype Kind = Kind(family: Family, contract: Option<string>, address: string, treasury: string, maxAttempts: nat,
                       requiredGas: nat, maxTopup: nat, gasReserve: nat, feeReserve: nat)

  datatype SendKind = Gas | Transfer

  /** A transaction handed to custody; kind and attempt make up its reference id. */
  datatype Send = Send(kind: SendKind, attempt: nat, value: nat)

  datatype Action =
    | Funded                                             // back to PENDING after a top-up arrived
    | ReserveAttempt
    | SendGas(value: nat)
    | StoreFunding(hash: Hash)
    | Begin                                              // BROADCASTING, one more attempt
    | Shrink(rawAmount: nat)
    | SendTransfer(value: nat)
    | StoreBroadcast(hash: Hash, requestId: Option<string>)
    | Retry                                              // Tron: back to PENDING after a thrown send
    | Confirm
    | Block(reason: Reason)

  // ----- what a worker may see

  datatype Moved = Moved(contract: Option<string>, source: string, destination: string, value: nat)

  datatype Receipt = Unmined | Reverted | Shallow | Deep(moves: seq<Moved>)

  datatype ProviderState = ProviderHash(hash: Hash) | ProviderFailed | ProviderUnknown

  datatype Answer = Sent(hash: Hash, requestId: Option<string>) | PolicyError | OtherError

  /** Everything one run of processSweep reads or is answered. */
  datatype View = View(eligible: bool, configured: bool, receipt: Receipt, provider: ProviderState,
                       nativeBalance: nat, fundingReverted: bool, fundedBalance: nat, currentBalance: nat,
                       refreshedBalance: nat, gasAnswer: Answer, fundingReceipt: Receipt, prepared: bool,
                       tokenBalance: nat, answer: Answer)

  // ----- the plans

  function Min(a: nat, b: nat): nat { if a <= b then a else b }

  /** The transfer the receipt of a sweep must show. */
  predicate IsSweepTransfer(k: Kind, row: Row, m: Moved) {
    m.contract == k.contract && m.source == k.address && m.destination == k.treasury && m.value == row.rawAmount
  }

  predicate MatchesReceipt(k: Kind, row: Row, moves: seq<Moved>) {
    if k.family == Evm && k.contract.None? then
      exists i :: 0 <= i < |moves| && moves[i].contract.None? && moves[i].destination == k.treasury &&
        moves[i].value > 0
    else
      exists i :: 0 <= i < |moves| && IsSweepTransfer(k, row, moves[i])
  }

  function ConfirmPlan(k: Kind, row: Row, receipt: Receipt): seq<Action> {
    match receipt
    case Unmined => []
    case Shallow => []
    case Reverted => if k.family == Solana then [] else [Block(OtherReason)]
    case Deep(moves) => if k.family == Tron || MatchesReceipt(k, row, moves) then [Confirm] else [Block(OtherReason)]
  }

  /** A row left BROADCASTING: ask the provider, or stop if there is nothing to ask about. */
  function ResumePlan(row: Row, provider: ProviderState): seq<Action> {
    if row.requestId.None? then [Block(OtherReason)]
    else
      match provider
      case ProviderHash(hash) => [StoreBroadcast(hash, None)]
      case ProviderFailed => [Block(OtherReason)]
      case ProviderUnknown => []
  }

  function TopUpPlan(k: Kind, value: nat, answer: Answer): seq<Action> {
    if k.family == Evm && (k.maxTopup == 0 || value > k.maxTopup) then [Block(OtherReason)]
    else
      [ReserveAttempt, SendGas(value)] +
      match answer
      case Sent(hash, _) => [StoreFunding(hash)]
      case PolicyError => if k.family == Evm then [Block(OtherReason)] else []
      case OtherError => []
  }

  function TransferPlan(k: Kind, value: nat, answer: Answer): seq<Action> {
    [SendTransfer(value)] +
    match answer
    case Sent(hash, requestId) => [StoreBroadcast(hash, requestId)]
    case _ => if k.family == Evm then [Block(OtherReason)] else if k.family == Tron then [Retry] else []
  }

  function EvmBroadcastPlan(k: Kind, row: Row, v: View): seq<Action> {
    [Begin] +
    if !v.prepared then [Block(OtherReason)]
    else if k.contract.None? then
      var available := if v.nativeBalance > k.gasReserve then v.nativeBalance - k.gasReserve else 0;
      var value := Min(row.rawAmount, available);
      if value == 0 then [Block(OtherReason)] else TransferPlan(k, value, v.answer)
    else if v.tokenBalance == 0 then [Block(OtherReason)]
    else if v.tokenBalance < row.rawAmount then [Shrink(v.tokenBalance)] + TransferPlan(k, v.tokenBalance, v.answer)
    else TransferPlan(k, row.rawAmount, v.answer)
  }

  function EvmPlan(k: Kind, row: Row, v: View): seq<Action> {
    if !v.eligible then [Block(EvmOnly)]
    else if !v.configured then [Block(OtherReason)]
    else if row.status == Broadcasted then if row.txHash.None? then [] else ConfirmPlan(k, row, v.receipt)
    else if row.status == Broadcasting then ResumePlan(row, v.provider)
    else if k.contract.Some? && v.nativeBalance < k.requiredGas then
      if row.status != FundingGas then TopUpPlan(k, k.requiredGas - v.nativeBalance, v.gasAnswer)
      else if !(row.gasHash.Some? && v.fundingReverted) && v.fundedBalance >= k.requiredGas then
        [Funded] + if v.refreshedBalance < k.requiredGas then [] else EvmBroadcastPlan(k, row, v)
      else
        // a reverted top-up blocks the sweep and may still be followed by another top-up
        var missing := if 0 < v.currentBalance < k.requiredGas then k.requiredGas - v.currentBalance else 0;
        var again := if missing > 0 then TopUpPlan(k, missing, v.gasAnswer) else [];
        if row.gasHash.Some? && v.fundingReverted then [Block(OtherReason)] + again else again
    else if k.contract.Some? && v.refreshedBalance < k.requiredGas then []
    else EvmBroadcastPlan(k, row, v)
  }

  function SolanaPlan(k: Kind, row: Row, v: View): seq<Action> {
    if !v.configured || k.contract.Some? then [Block(OtherReason)]
    else if row.status == Broadcasting then ResumePlan(row, v.provider)
    else if row.status == Broadcasted && row.txHash.Some? then ConfirmPlan(k, row, v.receipt)
    else if v.nativeBalance < row.rawAmount + k.feeReserve then
      TopUpPlan(k, row.rawAmount + k.feeReserve - v.nativeBalance, v.gasAnswer)
    else [Begin] + TransferPlan(k, row.rawAmount, v.answer)
  }

  /** A Tron sweep whose amount is settled: send it, or see to the gas. */
  function TronAmountPlan(k: Kind, row: Row, v: View, amount: nat): seq<Action> {
    var needed := if k.contract.Some? then k.feeReserve else amount + k.feeReserve;
    if v.nativeBalance >= needed then [Begin] + TransferPlan(k, amount, v.answer)
    else if row.status == FundingGas && row.gasHash.Some? then
      match v.fundingReceipt {
        case Deep(_) => [Funded]
        case Reverted => [Block(OtherReason)]
        case _ => []
      }
    else TopUpPlan(k, needed - v.nativeBalance, v.gasAnswer)
  }

  /** Tron has no BROADCASTING case: such a row is sent again. */
  function TronPlan(k: Kind, row: Row, v: View): seq<Action> {
    if !v.configured then [Block(OtherReason)]
    else if row.status == Broadcasted && row.txHash.Some? then ConfirmPlan(k, row, v.receipt)
    else if k.contract.Some? && v.tokenBalance == 0 then [Block(OtherReason)]
    else
      var amount := if k.contract.Some? then Min(row.rawAmount, v.tokenBalance) else row.rawAmount;
      if amount < row.rawAmount then [Shrink(amount)] + TronAmountPlan(k, row, v, amount)
      else TronAmountPlan(k, row, v, amount)
  }

  function Plan(k: Kind, row: Row, v: View): seq<Action> {
    match k.family
    case Evm => EvmPlan(k, row, v)
    case Solana => SolanaPlan(k, row, v)
    case Tron => TronPlan(k, row, v)
  }

  // ----- carrying actions out

  function Write(row: Row, a: Action): Row {
    match a
    case Funded => row.(status := Pending, reason := NoReason)
    case ReserveAttempt => row.(attempts := row.attempts + 1)
    case StoreFunding(hash) => row.(status := FundingGas, gasHash := Some(hash))
    case Begin => row.(status := Broadcasting, attempts := row.attempts + 1)
    case Shrink(rawAmount) => row.(rawAmount := rawAmount)
    case StoreBroadcast(hash, requestId) =>
      row.(status := Broadcasted, txHash := Some(hash),
           requestId := if requestId.Some? then requestId else row.requestId)
    case Retry => row.(status := Pending, reason := OtherReason)
    case Confirm => row.(status := Confirmed, reason := NoReason)
    case Block(reason) => row.(status := Blocked, reason := reason)
    case SendGas(_) => row
    case SendTransfer(_) => row
  }

  /** The reference id of a send uses the attempt just written to the row. */
  function Handed(row: Row, a: Action): seq<Send> {
    match a
    case SendGas(value) => [Send(Gas, row.attempts, value)]
    case SendTransfer(value) => [Send(Transfer, row.attempts, value)]
    case _ => []
  }

  /** A webhook whose transaction has read the row and has not written yet. */
  datatype Hook = Hook(gas: bool, failed: bool, hash: Option<Hash>, requestId: Option<string>, seen: Row)

  /**
   * `snapshot` is the row as the tick read it, `todo` what is left of the running plan, `sends` the history;
   * `recalled` says that the tick has read the row as one to requeue.
   */
  datatype Sweep = Sweep(row: Row, snapshot: Option<Row>, todo: seq<Action>, sends: seq<Send>,
                         hooks: seq<Hook>, recalled: bool)

  function Fresh(rawAmount: nat): Sweep {
    Sweep(Row(Pending, NoReason, 0, rawAmount, None, None, None), None, [], [], [], false)
  }

  datatype Outcome = Done | Fails | Lost

  datatype Event =
    | Select                                             // the tick reads its list of sweeps
    | Start(view: View)                                  // and reaches this one
    | Work(outcome: Outcome, block: bool)                // after a failure the handler may block the sweep
    | Crash
    | Exhaust
    | Recall                                             // the tick reads what it may requeue
    | Requeue(eligible: bool)                            // and writes it back
    | WebhookRead(gas: bool, failed: bool, hash: Option<Hash>, requestId: Option<string>)
    | WebhookWrite(i: nat)
    | WebhookAbort(i: nat)                               // the transaction throws and leaves nothing

  predicate Selectable(k: Kind, row: Row) {
    row.status in {Pending, FundingGas, Broadcasting, Broadcasted} && row.attempts < k.maxAttempts
  }

  /**
   * What a webhook writes.  Its transaction runs READ COMMITTED: status, reason and missing hashes are those
   * of the row it read, whatever the row has become.
   */
  function RowAfter(row: Row, h: Hook): Row {
    var reason := if h.failed then OtherReason else h.seen.reason;
    if h.gas then
      row.(gasHash := if h.hash.Some? then h.hash else h.seen.gasHash,
           status := if h.failed then Blocked else h.seen.status, reason := reason)
    else
      row.(requestId := if h.requestId.Some? then h.requestId else h.seen.requestId,
           txHash := if h.hash.Some? then h.hash else h.seen.txHash,
           status := if h.failed then Blocked else if h.hash.Some? then Broadcasted else h.seen.status,
           reason := reason)
  }

  function Closed(hooks: seq<Hook>, i: nat): seq<Hook>
    requires i < |hooks|
  {
    hooks[..i] + hooks[i + 1..]
  }

  /** A row the tick reads as one to requeue. */
  predicate Recallable(row: Row) { row.status == Blocked && row.reason == EvmOnly }

  predicate WorkerIdle(s: Sweep) { s.snapshot.None? && s.todo == [] && !s.recalled }

  /** The next action done. */
  function Carried(s: Sweep): Sweep
    requires s.todo != []
  {
    s.(row := Write(s.row, s.todo[0]), sends := s.sends + Handed(s.row, s.todo[0]), todo := s.todo[1..])
  }

  /** The rest of the plan given up for what the error handler does. */
  function Handled(s: Sweep, block: bool): Sweep { s.(todo := if block then [Block(OtherReason)] else []) }

  function Step(k: Kind, s: Sweep, e: Event): Sweep {
    match e
    case Select => if WorkerIdle(s) && Selectable(k, s.row) then s.(snapshot := Some(s.row)) else s
    case Start(view) =>
      if s.snapshot.None? then s else s.(snapshot := None, todo := Plan(k, s.snapshot.value, view))
    case Work(outcome, block) =>
      if s.todo == [] then s
      else
        match outcome {
          case Done => Carried(s)
          case Fails => Handled(s, block)
          case Lost => Handled(Carried(s), block)
        }
    case Crash => s.(snapshot := None, todo := [], recalled := false)
    case Exhaust =>
      if WorkerIdle(s) && s.row.status in {Pending, FundingGas, Broadcasting} && s.row.attempts >= k.maxAttempts
      then s.(row := s.row.(status := Blocked, reason := OtherReason)) else s
    case Recall => if WorkerIdle(s) && Recallable(s.row) then s.(recalled := true) else s
    case Requeue(eligible) =>
      if !s.recalled then s
      else if eligible then s.(row := s.row.(status := Pending, reason := NoReason), recalled := false)
      else s.(recalled := false)
    case WebhookRead(gas, failed, hash, requestId) => s.(hooks := s.hooks + [Hook(gas, failed, hash, requestId, s.row)])
    case WebhookWrite(i) =>
      if i < |s.hooks| then s.(row := RowAfter(s.row, s.hooks[i]), hooks := Closed(s.hooks, i)) else s
    case WebhookAbort(i) => if i < |s.hooks| then s.(hooks := Closed(s.hooks, i)) else s
  }

  function Run(k: Kind, s: Sweep, events: seq<Event>): Sweep
    decreases |events|
  {
    if events == [] then s else Run(k, Step(k, s, events[0]), events[1..])
  }

  function Transfers(sends: seq<Send>): nat {
    if sends == [] then 0
    else Transfers(sends[..|sends| - 1]) + if sends[|sends| - 1].kind == Transfer then 1 else 0
  }
}
