/**
 * Conversions as a state machine: quotes, conversion rows and the ledger, moved by
 * database transactions and by the worker's calls to providers.  A worker that has
 * claimed a row is described by a program counter; providers, the chain, the clock,
 * failing writes and crashes are the arguments of the events.
 */
module Conversions {
  import opened Wrappers
  import opened Ledger

  type Hash = string

  datatype Config = Config(feeBps: nat, coverageBps: nat)

  /** The ranges that env.validation.ts enforces. */
  predicate ValidConfig(cfg: Config) {
    cfg.feeBps <= 300 && 10_000 <= cfg.coverageBps <= 20_000
  }

  datatype Provider = InternalReserve | OneInch
  datatype QuoteStatus = Active | Consumed | Expired
  datatype Status = Pending | Executing | Filled | Failed | Cancelled

  datatype Quote = Quote(user: UserId, from: AssetId, to: AssetId, provider: Provider, fromAmount: real,
                         expected: real, min: real, fee: real, metadataOk: bool, expiresAt: int, status: QuoteStatus)

  datatype Row = Row(user: UserId, clientId: string, quote: nat, from: AssetId, to: AssetId, provider: Provider,
                     fromAmount: real, expected: real, min: real, fee: real, metadataOk: bool, status: Status,
                     actual: Option<real>, txHash: Option<Hash>, attempts: nat)

  /** A reserve check that passed: the custody balance and the liabilities it read. */
  datatype Coverage = Coverage(custody: real, liabilities: real)

  datatype Pc =
    | Idle                                 // no worker, or a crashed one
    | Loading                              // claimed
    | Preparing                            // 1inch route, no swap handed over yet
    | Sent(hash: Hash)                     // custody answered, the hash is not stored yet
    | Waiting                              // the stored hash awaits its receipt
    | Settling(net: real, feeOverride: Option<real>, check: Option<Coverage>)
    | Suspending                           // about to return the row to PENDING
    | Failing(release: bool)

  /** History of one conversion: swaps handed to custody, swaps that reached the chain, and faults after that. */
  datatype Trail = Trail(handed: nat, landed: nat, reverted: bool, fault: bool)

  datatype Conv = Conv(row: Row, pc: Pc, trail: Trail)

  /** A conversion's id is its index, which is also its creation order. */
  datatype World = World(quotes: seq<Quote>, convs: seq<Conv>, log: Log)

  const EMPTY := World([], [], [])

  // ----- quote and fee arithmetic

  function Fee(cfg: Config, gross: real): real {
    gross * (cfg.feeBps as real) / 10_000.0
  }

  function MinOut(cfg: Config, gross: real, slippageBps: nat): real {
    gross * ((10_000 - slippageBps) as real) / 10_000.0 - Fee(cfg, gross)
  }

  // ----- postings

  function Clearing(asset: AssetId): Account { Account(ProviderClearing, None, asset) }
  function Spot(user: UserId, asset: AssetId): Account { Account(UserSpot, Some(user), asset) }
  function Fees(asset: AssetId): Account { Account(PlatformFees, None, asset) }

  function ReserveEntries(user: UserId, asset: AssetId, amount: real): seq<Entry> {
    [Entry(Spot(user, asset), Debit, amount), Entry(Clearing(asset), Credit, amount)]
  }

  function TradeEntries(user: UserId, asset: AssetId, net: real, fee: real): seq<Entry> {
    [Entry(Clearing(asset), Debit, net + fee), Entry(Spot(user, asset), Credit, net)] +
    if fee > 0.0 then [Entry(Fees(asset), Credit, fee)] else []
  }

  function ReleaseEntries(user: UserId, asset: AssetId, amount: real): seq<Entry> {
    [Entry(Clearing(asset), Debit, amount), Entry(Spot(user, asset), Credit, amount)]
  }

  // ----- database transactions

  function CreateQuote(cfg: Config, w: World, user: UserId, from: AssetId, to: AssetId, provider: Provider,
                       fromAmount: real, gross: real, slippageBps: nat, metadataOk: bool, expiresAt: int): World
  {
    if from == to || fromAmount <= 0.0 || slippageBps > 100 || gross < 0.0 then w
    else
      var fee := Fee(cfg, gross);
      w.(quotes := w.quotes + [Quote(user, from, to, provider, fromAmount, gross - fee, MinOut(cfg, gross, slippageBps),
                                     fee, metadataOk, expiresAt, Active)])
  }

  /** Why `execute` throws; AlreadyExists answers the earlier conversion instead. */
  datatype Refusal =
    | Disabled | AlreadyExists(id: nat) | NotFound | QuoteExpired | NotAdmitted | QuoteTaken | PostingRefused

  predicate ByClient(c: Conv, user: UserId, clientId: string) { c.row.user == user && c.row.clientId == clientId }

  /** The index of the client's conversion, or the number of conversions. */
  function FindByClient(convs: seq<Conv>, user: UserId, clientId: string): (i: nat)
    ensures i <= |convs|
    ensures i < |convs| ==> ByClient(convs[i], user, clientId)
    ensures forall j | 0 <= j < i :: !ByClient(convs[j], user, clientId)
  {
    if convs == [] || ByClient(convs[0], user, clientId) then 0
    else 1 + FindByClient(convs[1..], user, clientId)
  }

  function NewRow(q: Quote, quoteId: nat, user: UserId, clientId: string): Row {
    Row(user, clientId, quoteId, q.from, q.to, q.provider, q.fromAmount, q.expected, q.min, q.fee, q.metadataOk,
        Pending, None, None, 0)
  }

  /** A database transaction: its writes are stored if it commits and rolled back if it throws. */
  datatype Transaction = Commits(w: World) | Throws(local: World, why: Refusal)

  /** The transaction of execute; `admitted`: the balance check and the reserve or inventory check both passed. */
  function ExecuteTransaction(w: World, user: UserId, clientId: string, quoteId: nat, now: int, admitted: bool)
    : Transaction
  {
    if quoteId >= |w.quotes| || w.quotes[quoteId].user != user then Throws(w, NotFound)
    else
      var q := w.quotes[quoteId];
      if q.status != Active || q.expiresAt <= now then
        var expired := w.(quotes := w.quotes[quoteId := q.(status := Expired)]);
        Throws(if q.status == Active then expired else w, QuoteExpired)
      else if !admitted then Throws(w, NotAdmitted)
      else if exists i :: 0 <= i < |w.convs| && w.convs[i].row.quote == quoteId then Throws(w, QuoteTaken)
      else
        var posting := Posting(ConvertReserve(|w.convs|), ReserveEntries(user, q.from, q.fromAmount));
        var conv := Conv(NewRow(q, quoteId, user, clientId), Idle, Trail(0, 0, false, false));
        var created := w.(convs := w.convs + [conv]);
        if !Accepts(w.log, posting) then Throws(created, PostingRefused)
        else Commits(World(w.quotes[quoteId := q.(status := Consumed)], created.convs, Posted(w.log, posting)))
  }

  /** What execute answers with instead of a new conversion. */
  function ExecuteRefusal(w: World, user: UserId, clientId: string, quoteId: nat, now: int, admitted: bool)
    : Option<Refusal>
  {
    var existing := FindByClient(w.convs, user, clientId);
    if existing < |w.convs| then Some(AlreadyExists(existing))
    else
      match ExecuteTransaction(w, user, clientId, quoteId, now, admitted)
      case Commits(_) => None
      case Throws(_, why) => Some(why)
  }

  function Execute(w: World, user: UserId, clientId: string, quoteId: nat, now: int, admitted: bool): World {
    if FindByClient(w.convs, user, clientId) < |w.convs| then w
    else
      match ExecuteTransaction(w, user, clientId, quoteId, now, admitted)
      case Commits(stored) => stored
      case Throws(_, _) => w
  }

  predicate Claimable(w: World, id: nat) {
    id < |w.convs| && w.convs[id].row.status == Pending
  }

  function Claim(w: World, id: nat): World {
    if !Claimable(w, id) then w else
      var c := w.convs[id];
      w.(convs := w.convs[id := c.(row := c.row.(status := Executing, attempts := c.row.attempts + 1), pc := Loading)])
  }

  function TradePosting(row: Row, id: nat, net: real, feeOverride: Option<real>): Posting {
    var fee := if feeOverride.Some? then feeOverride.value else row.fee;
    Posting(ConvertTrade(id), TradeEntries(row.user, row.to, net, fee))
  }

  /** settleConversion commits: the row is FILLED already, or the ledger takes the trade. */
  predicate SettleCommits(w: World, id: nat, net: real, feeOverride: Option<real>)
    requires id < |w.convs|
  {
    w.convs[id].row.status == Filled || Accepts(w.log, TradePosting(w.convs[id].row, id, net, feeOverride))
  }

  function SettleTransaction(w: World, id: nat, net: real, feeOverride: Option<real>): World
    requires id < |w.convs|
  {
    var c := w.convs[id];
    if c.row.status == Filled || !SettleCommits(w, id, net, feeOverride) then w
    else
      var fee := if feeOverride.Some? then feeOverride.value else c.row.fee;
      w.(convs := w.convs[id := c.(row := c.row.(status := Filled, actual := Some(net), fee := fee))],
         log := Posted(w.log, TradePosting(c.row, id, net, feeOverride)))
  }

  function ReleasePosting(row: Row, id: nat): Posting {
    Posting(ConvertRelease(id), ReleaseEntries(row.user, row.from, row.fromAmount))
  }

  /** failConversion leaves FILLED and CANCELLED rows alone. */
  function FailTransaction(w: World, id: nat, release: bool): World
    requires id < |w.convs|
  {
    var c := w.convs[id];
    if c.row.status == Filled || c.row.status == Cancelled || (release && !Accepts(w.log, ReleasePosting(c.row, id)))
    then w
    else
      w.(convs := w.convs[id := c.(row := c.row.(status := Failed))],
         log := if release then Posted(w.log, ReleasePosting(c.row, id)) else w.log)
  }

  // ----- the worker

  datatype Act =
    | Load(custody: real)                        // read the row; for a reserve, check the coverage
    | Throw                                      // an unexpected error, or a write that failed
    | ApprovalPending                            // the approval receipt did not arrive in time
    | UnexpectedSender                           // a receipt signed by another wallet
    | SendSwap(hash: Hash)                       // custody accepted the swap
    | SendSwapThrows(landed: bool)               // custody threw, the swap may have gone out
    | StoreHash(lost: bool)                      // the write commits; its answer may be lost
    | ReceiptReverted
    | ReceiptPending
    | ReceiptMined(gross: real)
    | StorePending                               // back to PENDING
    | Crash

  /** Coverage as assertReserveCoverage tests it. */
  predicate Covers(cfg: Config, custody: real, liabilities: real) {
    custody >= liabilities * (cfg.coverageBps as real) / 10_000.0
  }

  /** The world after one step of a worker on its own row; `liabilities` is the ledger's USER_SPOT total. */
  function Work(cfg: Config, liabilities: real, c: Conv, act: Act): Conv {
    match act
    case Load(custody) =>
      if c.pc != Loading then c
      else if c.row.provider == InternalReserve then
        if !Covers(cfg, custody, liabilities + c.row.expected) then c.(pc := Failing(true))
        else c.(pc := Settling(c.row.expected, None, Some(Coverage(custody, liabilities))))
      else if !c.row.metadataOk then c.(pc := Failing(true))
      else c.(pc := if c.row.txHash.Some? then Waiting else Preparing)
    case Throw =>
      match c.pc {
        case Loading | Preparing | Sent(_) | Waiting | Settling(_, _, _) =>
          c.(pc := Failing(true), trail := Faulted(c.trail))
        case Suspending | Failing(_) => c.(pc := Idle)
        case Idle => c
      }
    case ApprovalPending => if c.pc == Preparing then c.(pc := Suspending) else c
    case UnexpectedSender => if c.pc == Preparing || c.pc == Waiting then c.(pc := Failing(false)) else c
    case SendSwap(hash) =>
      if c.pc != Preparing then c
      else c.(pc := Sent(hash), trail := c.trail.(handed := c.trail.handed + 1, landed := c.trail.landed + 1))
    case SendSwapThrows(landed) =>
      if c.pc != Preparing then c
      else
        var t := c.trail.(handed := c.trail.handed + 1, landed := c.trail.landed + if landed then 1 else 0);
        c.(pc := Failing(true), trail := Faulted(t))
    case StoreHash(lost) =>
      if !c.pc.Sent? then c
      else
        var row := c.row.(txHash := Some(c.pc.hash));
        if lost then Conv(row, Failing(true), Faulted(c.trail)) else Conv(row, Waiting, c.trail)
    case ReceiptReverted => if c.pc == Waiting then c.(pc := Failing(true), trail := c.trail.(reverted := true)) else c
    case ReceiptPending => if c.pc == Waiting then c.(pc := Suspending) else c
    case ReceiptMined(gross) =>
      if c.pc != Waiting then c
      else
        var net := gross - Fee(cfg, gross);
        if gross <= 0.0 || net < c.row.min then c.(pc := Failing(false))
        else c.(pc := Settling(net, Some(Fee(cfg, gross)), None))
    case StorePending => if c.pc == Suspending then Conv(c.row.(status := Pending), Idle, c.trail) else c
    case Crash => c.(pc := Idle)
  }

  /** An error that is neither a revert, a timeout nor a mismatch counts as a fault once a swap is on the chain. */
  function Faulted(t: Trail): Trail {
    if t.landed > 0 then t.(fault := true) else t
  }

  datatype Event =
    | QuoteEvent(user: UserId, from: AssetId, to: AssetId, provider: Provider, fromAmount: real, gross: real,
                 slippageBps: nat, metadataOk: bool, expiresAt: int)
    | ExecuteEvent(user: UserId, clientId: string, quoteId: nat, now: int, admitted: bool)
    | ClaimEvent(id: nat)
    | WorkEvent(id: nat, act: Act)
    | SettleEvent(id: nat, lost: bool)             // the commit may happen without its answer
    | FailEvent(id: nat)
    | OtherPosting(name: string, entries: seq<Entry>)

  function Liabilities(log: Log, asset: AssetId): real {
    Balance(log, WholeType(UserSpot, asset))
  }

  function SetPc(w: World, id: nat, pc: Pc): World
    requires id < |w.convs|
  {
    w.(convs := w.convs[id := w.convs[id].(pc := pc)])
  }

  function Settle(w: World, id: nat, lost: bool): World {
    if id >= |w.convs| || !w.convs[id].pc.Settling? then w
    else
      var c := w.convs[id];
      var w' := SettleTransaction(w, id, c.pc.net, c.pc.feeOverride);
      if SettleCommits(w, id, c.pc.net, c.pc.feeOverride) && !lost then SetPc(w', id, Idle)
      else
        var c' := w'.convs[id];
        w'.(convs := w'.convs[id := c'.(pc := Failing(true), trail := if lost then Faulted(c.trail) else c.trail)])
  }

  function Fail(w: World, id: nat): World {
    if id >= |w.convs| || !w.convs[id].pc.Failing? then w
    else SetPc(FailTransaction(w, id, w.convs[id].pc.release), id, Idle)
  }

  function WorkOn(cfg: Config, w: World, id: nat, act: Act): World {
    if id >= |w.convs| then w
    else w.(convs := w.convs[id := Work(cfg, Liabilities(w.log, w.convs[id].row.to), w.convs[id], act)])
  }

  function Step(cfg: Config, w: World, e: Event): World {
    match e
    case QuoteEvent(user, from, to, provider, fromAmount, gross, slippageBps, metadataOk, expiresAt) =>
      CreateQuote(cfg, w, user, from, to, provider, fromAmount, gross, slippageBps, metadataOk, expiresAt)
    case ExecuteEvent(user, clientId, quoteId, now, admitted) => Execute(w, user, clientId, quoteId, now, admitted)
    case ClaimEvent(id) => Claim(w, id)
    case WorkEvent(id, act) => WorkOn(cfg, w, id, act)
    case SettleEvent(id, lost) => Settle(w, id, lost)
    case FailEvent(id) => Fail(w, id)
    case OtherPosting(name, entries) => w.(log := Posted(w.log, Posting(OtherKey(name), entries)))
  }

  /** Any interleaving of users, workers and the rest of the exchange. */
  function Replay(cfg: Config, w: World, events: seq<Event>): World
    decreases |events|
  {
    if events == [] then w else Replay(cfg, Step(cfg, w, events[0]), events[1..])
  }

  lemma {:induction false} ReplayConcat(cfg: Config, w: World, a: seq<Event>, b: seq<Event>)
    ensures Replay(cfg, w, a + b) == Replay(cfg, Replay(cfg, w, a), b)
    decreases |a|
  {
    if a == [] {
      assert a + b == b;
    } else {
      assert (a + b)[1..] == a[1..] + b;
      ReplayConcat(cfg, Step(cfg, w, a[0]), a[1..], b);
    }
  }
}
