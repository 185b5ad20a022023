/**
 * The conversion service as an object: `execute`, the two ledger transactions and the worker
 * update the rows step by step.  `history` records the events they amount to, so everything
 * proved about runs of the conversion machine holds of the object at any time.
 */
module ConvertWorker {
  import opened Wrappers
  import opened Ledger
  import opened Conversions
  import opened ConversionInvariants

  datatype Write = Done | WriteThrows | AnswerLost

  datatype Swap = SendThrows(landed: bool) | Accepted(hash: Hash, store: Write)

  datatype Preparation = PrepareThrows | ApprovalTimesOut | ApprovalFromElsewhere | Prepared(swap: Swap)

  datatype Receipt = NoReceipt | Reverted | ReadThrows | FromElsewhere | Mined(gross: real)

  /** What one worker run meets. */
  datatype Env = Env(claimThrows: bool, loadThrows: bool, custody: real, preparation: Preparation, receipt: Receipt,
                     settle: Write, lastWrite: bool)

  /** The hash a row holds after one try to send: that of an accepted swap whose write went through. */
  function HashAfter(hash: Option<Hash>, preparation: Preparation): Option<Hash> {
    match preparation
    case Prepared(Accepted(sent, store)) => if store == WriteThrows then hash else Some(sent)
    case _ => hash
  }

  /** Whether the try puts a swap on the chain. */
  predicate Lands(preparation: Preparation) {
    preparation.Prepared? && (preparation.swap.Accepted? || preparation.swap.landed)
  }

  /** Where the route of a claimed row ends, read off the row and what the run meets. */
  function RouteEnd(cfg: Config, liabilities: real, row: Row, env: Env): Pc {
    if env.loadThrows then Failing(true)
    else if row.provider == InternalReserve then
      if Covers(cfg, env.custody, liabilities + row.expected)
      then Settling(row.expected, None, Some(Coverage(env.custody, liabilities)))
      else Failing(true)
    else if !row.metadataOk then Failing(true)
    else if row.txHash.None? && env.preparation == ApprovalTimesOut then Suspending
    else if row.txHash.None? && env.preparation == ApprovalFromElsewhere then Failing(false)
    else if row.txHash.None? && (env.preparation == PrepareThrows || env.preparation.swap.SendThrows? ||
                                 env.preparation.swap.store != Done)
    then Failing(true)
    else ReceiptEnd(cfg, row, env.receipt)
  }

  /** A timeout pauses, a revert or an error releases, a mismatch is held for an operator. */
  function ReceiptEnd(cfg: Config, row: Row, receipt: Receipt): Pc {
    match receipt
    case NoReceipt => Suspending
    case Reverted => Failing(true)
    case ReadThrows => Failing(true)
    case FromElsewhere => Failing(false)
    case Mined(gross) =>
      var fee := Fee(cfg, gross);
      if gross > 0.0 && gross - fee >= row.min then Settling(gross - fee, Some(fee), None) else Failing(false)
  }

  /** A stored hash, from an earlier run or from a swap this one sends. */
  predicate HasSwap(row: Row, env: Env) {
    row.txHash.Some? || (env.preparation.Prepared? && env.preparation.swap.Accepted? &&
                         env.preparation.swap.store == Done)
  }

  /** The receipt brings an output, and after the fee at least the minimum of the row. */
  predicate Suffices(cfg: Config, row: Row, receipt: Receipt) {
    receipt.Mined? && receipt.gross > 0.0 &&
      10_000.0 * (receipt.gross - row.min) >= receipt.gross * (cfg.feeBps as real)
  }

  /**
   * When a claimed row is settled, paused, held for an operator or released: a reserve row is settled if the custody
   * covers the liabilities with it, a 1inch row if the receipt of its swap suffices.
   */
  lemma {:induction false} RouteDecides(cfg: Config, liabilities: real, row: Row, env: Env)
    ensures
      var end := RouteEnd(cfg, liabilities, row, env);
      var swaps, waits := row.provider == OneInch && row.metadataOk && !env.loadThrows, HasSwap(row, env);
      var mismatch := env.receipt == FromElsewhere || (env.receipt.Mined? && !Suffices(cfg, row, env.receipt));
      && (end.Settling? <==>
          (row.provider == InternalReserve && !env.loadThrows &&
           10_000.0 * env.custody >= (liabilities + row.expected) * (cfg.coverageBps as real)) ||
          (swaps && waits && Suffices(cfg, row, env.receipt)))
      && (end == Suspending <==>
          swaps && if waits then env.receipt == NoReceipt else env.preparation == ApprovalTimesOut)
      && (end == Failing(false) <==>
          swaps && if waits then mismatch else env.preparation == ApprovalFromElsewhere)
      && (end.Settling? || end == Suspending || end.Failing?)
  {
  }

  /** The row a finished run leaves for each end of its route, when its last write goes through. */
  ghost predicate Finished(w: World, id: nat, end: Pc, settle: Write)
    requires id < |w.convs|
  {
    var row := w.convs[id].row;
    && (end == Suspending ==> row.status == Pending)
    && (end == Failing(true) ==> row.status == Failed && HasKey(w.log, ConvertRelease(id)))
    && (end == Failing(false) ==>
        row.status == Failed && !HasKey(w.log, ConvertRelease(id)) && !HasKey(w.log, ConvertTrade(id)))
    && (end.Settling? && settle == WriteThrows ==> row.status == Failed && HasKey(w.log, ConvertRelease(id)))
    && (end.Settling? && settle != WriteThrows && row.provider == OneInch ==>
          row.status == Filled && row.actual == Some(end.net) && HasKey(w.log, ConvertTrade(id)))
    && (end.Settling? && settle != WriteThrows && row.provider == InternalReserve ==>
          if end.net > 0.0 then row.status == Filled && row.actual == Some(end.net) && HasKey(w.log, ConvertTrade(id))
          else row.status == Failed && HasKey(w.log, ConvertRelease(id)))
  }

  /** In every run: what a failure stores, and where a FILLED row has its trade. */
  lemma {:induction false} FailureIsStored(cfg: Config, events: seq<Event>, id: nat)
    requires ValidConfig(cfg) && id < |Replay(cfg, EMPTY, events).convs|
    ensures
      var w := Replay(cfg, EMPTY, events);
      var c, w' := w.convs[id], Fail(w, id);
      && |w'.convs| == |w.convs|
      && (c.row.status == Filled ==> HasKey(w.log, ConvertTrade(id)) && w'.convs[id].row == c.row && w'.log == w.log)
      && (c.pc.Failing? && c.row.status == Executing ==>
            && w'.convs[id].row.status == Failed && !HasKey(w'.log, ConvertTrade(id))
            && (HasKey(w'.log, ConvertRelease(id)) <==> c.pc.release))
  {
    ReplayKeeps(cfg, EMPTY, events);
    var w := Replay(cfg, EMPTY, events);
    assert ConvAt(cfg, w, id);
    var row := w.convs[id].row;
    ReserveIsAcceptable(row.user, row.from, row.fromAmount);
    KeysAfter(w.log, ReleasePosting(row, id), ConvertRelease(id));
    KeysAfter(w.log, ReleasePosting(row, id), ConvertTrade(id));
  }

  /** In every run: what a settlement stores. */
  lemma {:induction false} SettlementIsStored(cfg: Config, events: seq<Event>, id: nat, lost: bool)
    requires ValidConfig(cfg) && id < |Replay(cfg, EMPTY, events).convs|
    requires var c := Replay(cfg, EMPTY, events).convs[id]; c.pc.Settling? && c.row.status == Executing
    ensures
      var w := Replay(cfg, EMPTY, events);
      var c, w' := w.convs[id], Settle(w, id, lost);
      && |w'.convs| == |w.convs| && w'.convs[id].row.provider == c.row.provider
      && (w'.convs[id].row.status == Filled <==> c.pc.net > 0.0)
      && (w'.convs[id].row.status == Filled ==> w'.convs[id].row.actual == Some(c.pc.net))
      && (w'.convs[id].row.status != Filled ==>
            c.row.provider == InternalReserve && w'.convs[id].row == c.row && w'.convs[id].pc == Failing(true))
  {
    ReplayKeeps(cfg, EMPTY, events);
    var w := Replay(cfg, EMPTY, events);
    assert ConvAt(cfg, w, id);
    var c := w.convs[id];
    TradeIsAcceptable(c.row.user, c.row.to, c.pc.net,
                      if c.pc.feeOverride.Some? then c.pc.feeOverride.value else c.row.fee);
  }

  /** What execute returns: the client's conversion, old or new, or why there is none. */
  function Answer(w: World, user: UserId, clientId: string, quoteId: nat, now: int, admitted: bool)
    : Result<nat, Refusal>
  {
    match ExecuteRefusal(w, user, clientId, quoteId, now, admitted)
    case None => Ok(|w.convs|)
    case Some(AlreadyExists(id)) => Ok(id)
    case Some(why) => Err(why)
  }

  class ConvertService {
    const cfg: Config
    const enabled: bool
    var w: World
    var workerRunning: bool
    ghost var history: seq<Event>

    ghost predicate Valid()
      reads this
    {
      ValidConfig(cfg) && w == Replay(cfg, EMPTY, history)
    }

    constructor (cfg: Config, enabled: bool)
      requires ValidConfig(cfg)
      ensures Valid() && w == EMPTY && !workerRunning && this.cfg == cfg && this.enabled == enabled
    {
      this.cfg, this.enabled := cfg, enabled;
      w, workerRunning, history := EMPTY, false, [];
    }

    ghost method Note(was: World, e: Event)
      requires ValidConfig(cfg) && was == Replay(cfg, EMPTY, history) && w == Step(cfg, was, e)
      modifies this`history
      ensures Valid() && history == old(history) + [e]
    {
      ReplayConcat(cfg, EMPTY, history, [e]);
      assert [e][1..] == [];
      assert Replay(cfg, was, [e]) == Replay(cfg, Step(cfg, was, e), []);
      history := history + [e];
    }

    /** Answers the client's conversion, new or old, and reserves the funds of a new one. */
    method Execute(user: UserId, clientId: string, quoteId: nat, now: int, admitted: bool)
      returns (r: Result<nat, Refusal>)
      requires Valid()
      modifies this`w, this`history
      ensures Valid()
      ensures w == if enabled then Conversions.Execute(old(w), user, clientId, quoteId, now, admitted) else old(w)
      ensures r == if enabled then Answer(old(w), user, clientId, quoteId, now, admitted) else Err(Disabled)
    {
      if !enabled {
        return Err(Disabled);
      }
      var existing := FindByClient(w.convs, user, clientId);
      if existing < |w.convs| {
        r := Ok(existing);
      } else {
        r := Transact(user, clientId, quoteId, now, admitted);
      }
      Note(old(w), ExecuteEvent(user, clientId, quoteId, now, admitted));
    }

    /** The transaction, writing to a copy that becomes the state only at its end. */
    method Transact(user: UserId, clientId: string, quoteId: nat, now: int, admitted: bool)
      returns (r: Result<nat, Refusal>)
      modifies this`w
      ensures match ExecuteTransaction(old(w), user, clientId, quoteId, now, admitted)
              case Commits(stored) => w == stored && r == Ok(|old(w).convs|)
              case Throws(_, why) => w == old(w) && r == Err(why)
    {
      var tx := w;
      if quoteId >= |tx.quotes| || tx.quotes[quoteId].user != user {
        return Err(NotFound);
      }
      var q := tx.quotes[quoteId];
      if q.status != Active || q.expiresAt <= now {
        if q.status == Active {
          tx := tx.(quotes := tx.quotes[quoteId := q.(status := Expired)]);
        }
        return Err(QuoteExpired);
      }
      if !admitted {
        return Err(NotAdmitted);
      }
      var id := |tx.convs|;
      for i := 0 to id
        invariant forall j | 0 <= j < i :: tx.convs[j].row.quote != quoteId
      {
        if tx.convs[i].row.quote == quoteId {
          return Err(QuoteTaken);
        }
      }
      var created := Conv(NewRow(q, quoteId, user, clientId), Idle, Trail(0, 0, false, false));
      tx := tx.(convs := tx.convs + [created]);
      var posting := Posting(ConvertReserve(id), ReserveEntries(user, q.from, q.fromAmount));
      if !Accepts(tx.log, posting) {
        return Err(PostingRefused);
      }
      tx := tx.(log := Posted(tx.log, posting));
      tx := tx.(quotes := tx.quotes[quoteId := q.(status := Consumed)]);
      w := tx;
      r := Ok(id);
    }

    /** One step of the worker on its own row. */
    method Do(id: nat, act: Act)
      requires Valid()
      modifies this`w, this`history
      ensures Valid() && w == WorkOn(cfg, old(w), id, act) && history == old(history) + [WorkEvent(id, act)]
      ensures OnlyTouched(old(w), w, id)
    {
      ghost var was := w;
      w := WorkOn(cfg, w, id, act);
      Note(was, WorkEvent(id, act));
    }

    /** The settlement transaction with the amounts at hand; throws into the failure path. */
    method SettleConversion(id: nat, outcome: Write)
      requires Valid() && id < |w.convs| && w.convs[id].pc.Settling?
      modifies this`w, this`history
      ensures Valid() && OnlyTouched(old(w), w, id) && old(history) <= history
      ensures w.convs[id].pc == Idle || w.convs[id].pc == Failing(true)
      ensures w == if outcome == WriteThrows then WorkOn(cfg, old(w), id, Throw)
              else Settle(old(w), id, outcome == AnswerLost)
    {
      if outcome == WriteThrows {
        Do(id, Throw);
        return;
      }
      ghost var was := w;
      var c := w.convs[id];
      var net, committed := c.pc.net, true;
      if c.row.status != Filled {
        var fee := if c.pc.feeOverride.Some? then c.pc.feeOverride.value else c.row.fee;
        var posting := Posting(ConvertTrade(id), TradeEntries(c.row.user, c.row.to, net, fee));
        committed := Accepts(w.log, posting);
        if committed {
          var filled := c.row.(status := Filled, actual := Some(net), fee := fee);
          w := w.(log := Posted(w.log, posting), convs := w.convs[id := c.(row := filled)]);
        }
      }
      var after := if committed && outcome == Done then Idle else Failing(true);
      var trail := if outcome == AnswerLost then Faulted(c.trail) else c.trail;
      w := w.(convs := w.convs[id := w.convs[id].(pc := after, trail := trail)]);
      Note(was, SettleEvent(id, outcome == AnswerLost));
    }

    /** The failure transaction: release the reserve or leave it for manual reconciliation. */
    method FailConversion(id: nat)
      requires Valid() && id < |w.convs| && w.convs[id].pc.Failing?
      modifies this`w, this`history
      ensures Valid() && OnlyTouched(old(w), w, id) && old(history) <= history
      ensures w == Fail(old(w), id)
    {
      ghost var was := w;
      var c := w.convs[id];
      var release := c.pc.release;
      if c.row.status != Filled && c.row.status != Cancelled {
        var posting := Posting(ConvertRelease(id), ReleaseEntries(c.row.user, c.row.from, c.row.fromAmount));
        if !release || Accepts(w.log, posting) {
          w := w.(log := if release then Posted(w.log, posting) else w.log,
                  convs := w.convs[id := c.(row := c.row.(status := Failed))]);
        }
      }
      w := SetPc(w, id, Idle);
      Note(was, FailEvent(id));
    }

    /** Prepares and sends the swap once, and stores its hash. */
    method SendOnce(id: nat, preparation: Preparation)
      requires Valid() && id < |w.convs| && w.convs[id].pc == Preparing
      modifies this`w, this`history
      ensures Valid() && OnlyTouched(old(w), w, id) && old(history) <= history
      ensures var c, c' := old(w).convs[id], w.convs[id];
              && c'.row == c.row.(txHash := HashAfter(c.row.txHash, preparation))
              && c'.trail.handed == c.trail.handed + (if preparation.Prepared? then 1 else 0)
              && c'.trail.landed == c.trail.landed + (if Lands(preparation) then 1 else 0)
      ensures w.convs[id].pc ==
              match preparation
              case PrepareThrows => Failing(true)
              case ApprovalTimesOut => Suspending
              case ApprovalFromElsewhere => Failing(false)
              case Prepared(Accepted(_, Done)) => Waiting
              case Prepared(_) => Failing(true)
    {
      match preparation {
        case PrepareThrows => Do(id, Throw);
        case ApprovalTimesOut => Do(id, ApprovalPending);
        case ApprovalFromElsewhere => Do(id, UnexpectedSender);
        case Prepared(SendThrows(landed)) => Do(id, SendSwapThrows(landed));
        case Prepared(Accepted(hash, store)) =>
          Do(id, SendSwap(hash));
          RecordHash(id, hash, store);
      }
    }

    /** Stores the hash of an accepted swap. */
    method RecordHash(id: nat, hash: Hash, store: Write)
      requires Valid() && id < |w.convs| && w.convs[id].pc == Sent(hash)
      modifies this`w, this`history
      ensures Valid() && OnlyTouched(old(w), w, id) && old(history) <= history
      ensures var c, c' := old(w).convs[id], w.convs[id];
              && c'.row == c.row.(txHash := if store == WriteThrows then c.row.txHash else Some(hash))
              && c'.pc == (if store == Done then Waiting else Failing(true))
              && c'.trail.handed == c.trail.handed && c'.trail.landed == c.trail.landed
    {
      if store == WriteThrows {
        Do(id, Throw);
      } else {
        Do(id, StoreHash(store == AnswerLost));
      }
    }

    /** Waits for the receipt of the stored hash and reads the output off it. */
    method AwaitReceipt(id: nat, receipt: Receipt)
      requires Valid() && id < |w.convs| && w.convs[id].pc == Waiting
      modifies this`w, this`history
      ensures Valid() && OnlyTouched(old(w), w, id) && old(history) <= history
      ensures w.convs[id].row == old(w).convs[id].row
      ensures w.convs[id].pc == ReceiptEnd(cfg, old(w).convs[id].row, receipt)
    {
      match receipt {
        case NoReceipt => Do(id, ReceiptPending);
        case Reverted => Do(id, ReceiptReverted);
        case ReadThrows => Do(id, Throw);
        case FromElsewhere => Do(id, UnexpectedSender);
        case Mined(gross) => Do(id, ReceiptMined(gross));
      }
    }

    /** Reads the claimed row and takes its route: the reserve, or 1inch from the stored hash or from the start. */
    method Route(id: nat, env: Env)
      requires Valid() && id < |w.convs| && w.convs[id].pc == Loading
      modifies this`w, this`history
      ensures Valid() && OnlyTouched(old(w), w, id) && old(history) <= history
      ensures w.convs[id].row == old(w).convs[id].row.(txHash := w.convs[id].row.txHash)
      ensures var row := old(w).convs[id].row;
              w.convs[id].pc == RouteEnd(cfg, Liabilities(old(w).log, row.to), row, env)
    {
      Do(id, if env.loadThrows then Throw else Load(env.custody));
      if w.convs[id].pc == Preparing {
        SendOnce(id, env.preparation);
      }
      if w.convs[id].pc == Waiting {
        AwaitReceipt(id, env.receipt);
      }
    }

    /** Runs a claimed conversion until the worker lets go of it. */
    method ProcessConversion(id: nat, env: Env)
      requires Valid() && id < |w.convs| && w.convs[id].pc == Loading
      modifies this`w, this`history
      ensures Valid() && OnlyTouched(old(w), w, id) && old(history) <= history && w.convs[id].pc == Idle
      ensures var row := old(w).convs[id].row;
              env.lastWrite ==> Finished(w, id, RouteEnd(cfg, Liabilities(old(w).log, row.to), row, env), env.settle)
    {
      assert w.convs[id].row.status == Executing by {
        ReplayKeeps(cfg, EMPTY, history);
        assert ConvAt(cfg, w, id);
      }
      Route(id, env);
      if env.lastWrite {
        Finish(id, env.settle);
      } else {
        Do(id, Crash);
      }
    }

    /** Settles if there is an output, then makes the write that ends the run. */
    method Finish(id: nat, settle: Write)
      requires Valid() && id < |w.convs|
      requires w.convs[id].row.status == Executing
      requires w.convs[id].pc == Suspending || w.convs[id].pc.Failing? || w.convs[id].pc.Settling?
      modifies this`w, this`history
      ensures Valid() && OnlyTouched(old(w), w, id) && old(history) <= history && w.convs[id].pc == Idle
      ensures Finished(w, id, old(w).convs[id].pc, settle)
    {
      if w.convs[id].pc.Settling? {
        SettlementIsStored(cfg, history, id, settle == AnswerLost);
        SettleConversion(id, settle);
      }
      FailureIsStored(cfg, history, id);
      if w.convs[id].pc == Suspending {
        Do(id, StorePending);
      } else if w.convs[id].pc.Failing? {
        FailConversion(id);
      }
    }

    /** Nobody else's rows change. */
    ghost predicate OnlyTouched(was: World, now: World, id: nat) {
      && |now.convs| == |was.convs| && now.quotes == was.quotes
      && forall j | 0 <= j < |was.convs| && j != id :: now.convs[j] == was.convs[j]
    }

    /** Claims a PENDING row and processes it. */
    method RunClaimed(id: nat, env: Env)
      requires Valid() && Claimable(w, id)
      modifies this`w, this`history
      ensures Valid() && OnlyTouched(old(w), w, id) && old(history) <= history && w.convs[id].pc == Idle
      ensures env.lastWrite ==>
                var row := old(w).convs[id].row;
                Finished(w, id, RouteEnd(cfg, Liabilities(old(w).log, row.to), row, env), env.settle)
    {
      TakeRow(id);
      ProcessConversion(id, env);
    }

    /** The conditional update that makes a PENDING row this worker's. */
    method TakeRow(id: nat)
      requires Valid() && Claimable(w, id)
      modifies this`w, this`history
      ensures Valid() && OnlyTouched(old(w), w, id) && old(history) <= history && w.log == old(w).log
      ensures w.convs[id].pc == Loading
      ensures var row := old(w).convs[id].row;
              w.convs[id].row == row.(status := Executing, attempts := row.attempts + 1)
    {
      ghost var was := w;
      w := Claim(w, id);
      Note(was, ClaimEvent(id));
    }

    /** One tick of the timer: the oldest PENDING conversion, unless a tick is still running. */
    method RunWorker(env: Env) returns (picked: Option<nat>)
      requires Valid()
      modifies this
      ensures Valid() && old(history) <= history
      ensures workerRunning == old(workerRunning)
      ensures picked.Some? <==> enabled && !old(workerRunning) && !env.claimThrows && exists i :: Claimable(old(w), i)
      ensures picked.None? ==> w == old(w)
      ensures picked.Some? ==>
                && Claimable(old(w), picked.value) && (forall j | 0 <= j < picked.value :: !Claimable(old(w), j))
                && OnlyTouched(old(w), w, picked.value)
                && w.convs[picked.value].pc == Idle
      ensures picked.Some? && env.lastWrite ==>
                var row := old(w).convs[picked.value].row;
                Finished(w, picked.value, RouteEnd(cfg, Liabilities(old(w).log, row.to), row, env), env.settle)
    {
      if workerRunning || !enabled {
        return None;
      }
      workerRunning := true;
      picked := None;
      if !env.claimThrows {
        var i := OldestPending();
        if i < |w.convs| {
          RunClaimed(i, env);
          picked := Some(i);
        }
      }
      workerRunning := false;
    }

    method OldestPending() returns (i: nat)
      ensures i <= |w.convs| && (i < |w.convs| ==> Claimable(w, i))
      ensures forall j | 0 <= j < i :: !Claimable(w, j)
    {
      i := 0;
      while i < |w.convs| && !Claimable(w, i)
        invariant i <= |w.convs| && forall j | 0 <= j < i :: !Claimable(w, j)
      {
        i := i + 1;
      }
    }
  }
}
