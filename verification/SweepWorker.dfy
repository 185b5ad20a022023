/**
 * The sweep service as an object over one row: the tick, the three family procedures and the
 * webhook handler update the row step by step, and amount to runs of the sweep machine.
 */
module SweepWorker {
  import opened Wrappers
  import opened Sweeps
  import opened SweepSafety
  import opened SweepTicks

  class SweepService {
    const k: Kind
    var row: Row
    var sends: seq<Send>
    var hooks: seq<Hook>
    ghost var history: seq<Event>
    ghost const recorded: nat

    ghost function State(): Sweep
      reads this
    {
      Sweep(row, None, [], sends, hooks, false)
    }

    /** The row is what a run of the machine from its creation leaves, with the worker idle. */
    ghost predicate Valid()
      reads this
    {
      State() == Run(k, Fresh(recorded), history)
    }

    constructor (k: Kind, rawAmount: nat)
      ensures Valid() && this.k == k && recorded == rawAmount && row == Fresh(rawAmount).row && sends == [] &&
              hooks == []
    {
      this.k, recorded := k, rawAmount;
      row, sends, hooks, history := Fresh(rawAmount).row, [], [], [];
    }

    /** One database write or custody call. */
    method Do(a: Action) returns (ghost done: seq<Action>)
      modifies this`row, this`sends
      ensures done == [a] && (row, sends) == Carry(old(row), old(sends), done)
    {
      sends := sends + Handed(row, a);
      row := Write(row, a);
      done := [a];
      assert done[1..] == [];
    }

    /** Hands the transfer to custody and stores or handles the answer. */
    method SendAndStore(value: nat, answer: Answer) returns (ghost done: seq<Action>)
      modifies this`row, this`sends
      ensures done == TransferPlan(k, value, answer) && (row, sends) == Carry(old(row), old(sends), done)
    {
      done := Do(SendTransfer(value));
      ghost var next: seq<Action> := [];
      match answer {
        case Sent(hash, requestId) => next := Do(StoreBroadcast(hash, requestId));
        case _ =>
          if k.family == Evm {
            next := Do(Block(OtherReason));
          } else if k.family == Tron {
            next := Do(Retry);
          }
      }
      CarryConcat(old(row), old(sends), done, next);
      done := done + next;
    }

    /** Tops the wallet up for gas, within the configured limit on EVM. */
    method TopUp(value: nat, answer: Answer) returns (ghost done: seq<Action>)
      modifies this`row, this`sends
      ensures done == TopUpPlan(k, value, answer) && (row, sends) == Carry(old(row), old(sends), done)
    {
      if k.family == Evm && (k.maxTopup == 0 || value > k.maxTopup) {
        done := Do(Block(OtherReason));
        return;
      }
      done := Do(ReserveAttempt);
      ghost var next := Do(SendGas(value));
      CarryConcat(old(row), old(sends), done, next);
      done, next := done + next, [];
      match answer {
        case Sent(hash, _) => next := Do(StoreFunding(hash));
        case PolicyError =>
          if k.family == Evm {
            next := Do(Block(OtherReason));
          }
        case OtherError =>
      }
      CarryConcat(old(row), old(sends), done, next);
      done := done + next;
    }

    /** Confirms a broadcast sweep from its receipt. */
    method ConfirmSweep(receipt: Receipt) returns (ghost done: seq<Action>)
      modifies this`row, this`sends
      ensures done == ConfirmPlan(k, old(row), receipt) && (row, sends) == Carry(old(row), old(sends), done)
    {
      done := [];
      match receipt {
        case Reverted =>
          if k.family != Solana {
            done := Do(Block(OtherReason));
          }
        case Deep(moves) =>
          if k.family == Tron || MatchesReceipt(k, row, moves) {
            done := Do(Confirm);
          } else {
            done := Do(Block(OtherReason));
          }
        case _ =>
      }
    }

    method Resume(provider: ProviderState) returns (ghost done: seq<Action>)
      modifies this`row, this`sends
      ensures done == ResumePlan(old(row), provider) && (row, sends) == Carry(old(row), old(sends), done)
    {
      done := [];
      if row.requestId.None? {
        done := Do(Block(OtherReason));
        return;
      }
      match provider {
        case ProviderHash(hash) => done := Do(StoreBroadcast(hash, None));
        case ProviderFailed => done := Do(Block(OtherReason));
        case ProviderUnknown =>
      }
    }

    /** The transfer of an EVM sweep, behind the write of a new attempt. */
    method BroadcastEvm(v: View) returns (ghost done: seq<Action>)
      modifies this`row, this`sends
      ensures done == EvmBroadcastPlan(k, old(row), v) && (row, sends) == Carry(old(row), old(sends), done)
    {
      var rawAmount := row.rawAmount;
      done := Do(Begin);
      ghost var next: seq<Action>;
      if !v.prepared || (k.contract.Some? && v.tokenBalance == 0) {
        next := Do(Block(OtherReason));
      } else if k.contract.None? {
        var available := if v.nativeBalance > k.gasReserve then v.nativeBalance - k.gasReserve else 0;
        var value := if rawAmount <= available then rawAmount else available;
        if value == 0 {
          next := Do(Block(OtherReason));
        } else {
          next := SendAndStore(value, v.answer);
        }
      } else if v.tokenBalance < rawAmount {
        next := Do(Shrink(v.tokenBalance));
        CarryConcat(old(row), old(sends), done, next);
        done := done + next;
        next := SendAndStore(v.tokenBalance, v.answer);
      } else {
        next := SendAndStore(rawAmount, v.answer);
      }
      CarryConcat(old(row), old(sends), done, next);
      done := done + next;
    }

    method ProcessEvm(v: View) returns (ghost done: seq<Action>)
      modifies this`row, this`sends
      ensures done == EvmPlan(k, old(row), v) && (row, sends) == Carry(old(row), old(sends), done)
    {
      done := [];
      if !v.eligible {
        done := Do(Block(EvmOnly));
      } else if !v.configured {
        done := Do(Block(OtherReason));
      } else if row.status == Broadcasted {
        if row.txHash.Some? {
          done := ConfirmSweep(v.receipt);
        }
      } else if row.status == Broadcasting {
        done := Resume(v.provider);
      } else if k.contract.None? || (v.nativeBalance >= k.requiredGas && v.refreshedBalance >= k.requiredGas) {
        done := BroadcastEvm(v);
      } else if v.nativeBalance < k.requiredGas {
        done := FundEvm(v);
      }
    }

    /** The token sweep of a wallet without gas: top up, wait, or go on once the top-up has arrived. */
    method FundEvm(v: View) returns (ghost done: seq<Action>)
      requires v.eligible && v.configured && k.contract.Some? && v.nativeBalance < k.requiredGas
      requires row.status != Broadcasted && row.status != Broadcasting
      modifies this`row, this`sends
      ensures done == EvmPlan(k, old(row), v) && (row, sends) == Carry(old(row), old(sends), done)
    {
      if row.status != FundingGas {
        done := TopUp(k.requiredGas - v.nativeBalance, v.gasAnswer);
        return;
      }
      done := [];
      var reverted := row.gasHash.Some? && v.fundingReverted;
      ghost var next: seq<Action> := [];
      if reverted {
        done := Do(Block(OtherReason));
      } else if v.fundedBalance >= k.requiredGas {
        done := Do(Funded);
        if v.refreshedBalance >= k.requiredGas {
          next := BroadcastEvm(v);
        }
        CarryConcat(old(row), old(sends), done, next);
        done := done + next;
        return;
      }
      if 0 < v.currentBalance < k.requiredGas {
        next := TopUp(k.requiredGas - v.currentBalance, v.gasAnswer);
      }
      CarryConcat(old(row), old(sends), done, next);
      assert [] + next == next && done + [] == done;
      done := done + next;
    }

    method ProcessSolana(v: View) returns (ghost done: seq<Action>)
      modifies this`row, this`sends
      ensures done == SolanaPlan(k, old(row), v) && (row, sends) == Carry(old(row), old(sends), done)
    {
      if !v.configured || k.contract.Some? {
        done := Do(Block(OtherReason));
      } else if row.status == Broadcasting {
        done := Resume(v.provider);
      } else if row.status == Broadcasted && row.txHash.Some? {
        done := ConfirmSweep(v.receipt);
      } else if v.nativeBalance < row.rawAmount + k.feeReserve {
        done := TopUp(row.rawAmount + k.feeReserve - v.nativeBalance, v.gasAnswer);
      } else {
        var amount := row.rawAmount;
        done := Do(Begin);
        ghost var next := SendAndStore(amount, v.answer);
        CarryConcat(old(row), old(sends), done, next);
        done := done + next;
      }
    }

    method ProcessTron(v: View) returns (ghost done: seq<Action>)
      modifies this`row, this`sends
      ensures done == TronPlan(k, old(row), v) && (row, sends) == Carry(old(row), old(sends), done)
    {
      done := [];
      if !v.configured {
        done := Do(Block(OtherReason));
        return;
      }
      if row.status == Broadcasted && row.txHash.Some? {
        done := ConfirmSweep(v.receipt);
        return;
      }
      var amount := row.rawAmount;
      if k.contract.Some? {
        if v.tokenBalance == 0 {
          done := Do(Block(OtherReason));
          return;
        }
        if v.tokenBalance < amount {
          amount := v.tokenBalance;
          done := Do(Shrink(amount));
        }
      }
      ghost var next := ProcessTronAmount(v, amount);
      CarryConcat(old(row), old(sends), done, next);
      done := done + next;
    }

    method ProcessTronAmount(v: View, amount: nat) returns (ghost done: seq<Action>)
      modifies this`row, this`sends
      ensures done == TronAmountPlan(k, old(row), v, amount) && (row, sends) == Carry(old(row), old(sends), done)
    {
      done := [];
      var needed := if k.contract.Some? then k.feeReserve else amount + k.feeReserve;
      if v.nativeBalance >= needed {
        done := Do(Begin);
        ghost var next := SendAndStore(amount, v.answer);
        CarryConcat(old(row), old(sends), done, next);
        done := done + next;
      } else if row.status == FundingGas && row.gasHash.Some? {
        match v.fundingReceipt {
          case Deep(_) => done := Do(Funded);
          case Reverted => done := Do(Block(OtherReason));
          case _ =>
        }
      } else {
        done := TopUp(needed - v.nativeBalance, v.gasAnswer);
      }
    }

    /** One run of processSweep, undisturbed. */
    method ProcessSweep(v: View)
      requires Valid() && Selectable(k, row)
      modifies this
      ensures Valid() && old(history) <= history && hooks == old(hooks)
      ensures (row, sends) == Carry(old(row), old(sends), Plan(k, old(row), v))
    {
      ghost var s := State();
      ghost var done;
      match k.family {
        case Evm => done := ProcessEvm(v);
        case Solana => done := ProcessSolana(v);
        case Tron => done := ProcessTron(v);
      }
      ghost var events := [Select, Start(v)] + Works(|done|);
      TickEnds(k, s, v);
      RunConcat(k, Fresh(recorded), history, events);
      history := history + events;
    }

    /** Adds one event to the history. */
    ghost method Note(was: Sweep, e: Event)
      requires was == Run(k, Fresh(recorded), history) && State() == Step(k, was, e)
      modifies this`history
      ensures Valid() && history == old(history) + [e]
    {
      RunConcat(k, Fresh(recorded), history, [e]);
      RunOne(k, was, [e]);
      history := history + [e];
    }

    /** Reads a row blocked for its address and returns it to PENDING if the address is eligible now. */
    method RequeueRecoverable(eligible: bool)
      requires Valid()
      modifies this`row, this`history
      ensures Valid() && old(history) <= history
      ensures row == if Recallable(old(row)) && eligible then old(row).(status := Pending, reason := NoReason)
              else old(row)
    {
      if row.status == Blocked && row.reason == EvmOnly {
        ghost var was := State();
        if eligible {
          row := row.(status := Pending, reason := NoReason);
        }
        ghost var events := [Recall, Requeue(eligible)];
        RunConcat(k, Fresh(recorded), history, events);
        RunOne(k, was, events);
        RunOne(k, Step(k, was, Recall), events[1..]);
        history := history + events;
      }
    }

    /** One tick over this sweep: requeue, block what is exhausted, then process what is left. */
    method RunOnce(eligible: bool, v: View)
      requires Valid()
      modifies this
      ensures Valid() && old(history) <= history && hooks == old(hooks)
      ensures old(row).status == Confirmed ||
              (old(row).status == Blocked && !(old(row).reason == EvmOnly && eligible)) ==>
                row == old(row) && sends == old(sends)
      ensures old(row).attempts >= k.maxAttempts ==>
                && sends == old(sends)
                && (old(row).status in {Pending, FundingGas, Broadcasting} || (Recallable(old(row)) && eligible) ==>
                      row == old(row).(status := Blocked, reason := OtherReason))
                && (old(row).status == Broadcasted ==> row == old(row))
      ensures InFlight(old(row).status) && old(row).attempts < k.maxAttempts ==>
                (row, sends) == Carry(old(row), old(sends), Plan(k, old(row), v))
      ensures Recallable(old(row)) && eligible && old(row).attempts < k.maxAttempts ==>
                var r := old(row).(status := Pending, reason := NoReason);
                (row, sends) == Carry(r, old(sends), Plan(k, r, v))
    {
      RequeueRecoverable(eligible);
      if row.status in {Pending, FundingGas, Broadcasting} && row.attempts >= k.maxAttempts {
        ghost var was := State();
        row := row.(status := Blocked, reason := OtherReason);
        Note(was, Exhaust);
      }
      if Selectable(k, row) {
        ProcessSweep(v);
      }
    }

    /** The first half of a webhook transaction: it reads the row. */
    method ReadWebhook(gas: bool, failed: bool, hash: Option<Hash>, requestId: Option<string>)
      requires Valid()
      modifies this`hooks, this`history
      ensures Valid() && history == old(history) + [WebhookRead(gas, failed, hash, requestId)]
      ensures hooks == old(hooks) + [Hook(gas, failed, hash, requestId, row)]
    {
      ghost var was := State();
      hooks := hooks + [Hook(gas, failed, hash, requestId, row)];
      Note(was, WebhookRead(gas, failed, hash, requestId));
    }

    /** The second half: it writes, with what it has read before. */
    method WriteWebhook(i: nat)
      requires Valid() && i < |hooks|
      modifies this`row, this`hooks, this`history
      ensures Valid() && history == old(history) + [WebhookWrite(i)]
      ensures row == RowAfter(old(row), old(hooks)[i]) && hooks == Closed(old(hooks), i)
    {
      ghost var was := State();
      var h := hooks[i];
      var reason := if h.failed then OtherReason else h.seen.reason;
      if h.gas {
        row := row.(gasHash := if h.hash.Some? then h.hash else h.seen.gasHash,
                    status := if h.failed then Blocked else h.seen.status, reason := reason);
      } else {
        var status := if h.failed then Blocked else if h.hash.Some? then Broadcasted else h.seen.status;
        row := row.(requestId := if h.requestId.Some? then h.requestId else h.seen.requestId,
                    txHash := if h.hash.Some? then h.hash else h.seen.txHash, status := status, reason := reason);
      }
      hooks := hooks[..i] + hooks[i + 1..];
      Note(was, WebhookWrite(i));
    }

    /** A webhook nothing comes between: what it has read is what it overwrites. */
    method HandleWebhook(gas: bool, failed: bool, hash: Option<Hash>, requestId: Option<string>)
      requires Valid()
      modifies this`row, this`hooks, this`history
      ensures Valid() && hooks == old(hooks)
      ensures history == old(history) + [WebhookRead(gas, failed, hash, requestId), WebhookWrite(|old(hooks)|)]
      ensures row == RowAfter(old(row), Hook(gas, failed, hash, requestId, old(row)))
      ensures row.attempts == old(row).attempts && row.rawAmount == old(row).rawAmount
      ensures if failed then row.status == Blocked && row.reason == OtherReason
              else row.status == (if !gas && hash.Some? then Broadcasted else old(row).status) &&
                   row.reason == old(row).reason
      ensures row.gasHash == if gas && hash.Some? then hash else old(row).gasHash
      ensures row.txHash == if !gas && hash.Some? then hash else old(row).txHash
      ensures row.requestId == if !gas && requestId.Some? then requestId else old(row).requestId
    {
      var i := |hooks|;
      ReadWebhook(gas, failed, hash, requestId);
      WriteWebhook(i);
      assert Closed(old(hooks) + [Hook(gas, failed, hash, requestId, old(row))], i) == old(hooks);
    }
  }
}
