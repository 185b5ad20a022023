/**
 * What one undisturbed tick makes of a sweep, told by the row it leaves and the custody calls it adds, and
 * what it takes, over every run, for a sweep to be confirmed.
 */
module SweepTicks {
  import opened Wrappers
  import opened Sweeps
  import opened SweepSafety

  // ----- what a tick can come to

  /** The row a tick leaves and the custody calls so far. */
  type End = (Row, seq<Send>)

  function Stopped(row: Row, sends: seq<Send>, reason: Reason): End {
    (row.(status := Blocked, reason := reason), sends)
  }

  /** One more attempt, its transfer, and what the answer makes of it. */
  function HandedOver(k: Kind, row: Row, sends: seq<Send>, value: nat, answer: Answer): End {
    var tried := row.(attempts := row.attempts + 1);
    ((match answer
      case Sent(hash, id) =>
        tried.(status := Broadcasted, txHash := Some(hash), requestId := if id.Some? then id else row.requestId)
      case _ =>
        if k.family == Evm then tried.(status := Blocked, reason := OtherReason)
        else if k.family == Tron then tried.(status := Pending, reason := OtherReason)
        else tried.(status := Broadcasting)),
     sends + [Send(Transfer, row.attempts + 1, value)])
  }

  /** One more attempt and its top-up, within the limit on EVM; only a policy refusal there blocks the sweep. */
  function ToppedUp(k: Kind, row: Row, sends: seq<Send>, value: nat, answer: Answer): End {
    var tried := row.(attempts := row.attempts + 1);
    if k.family == Evm && (k.maxTopup == 0 || value > k.maxTopup) then Stopped(row, sends, OtherReason)
    else
      ((match answer
        case Sent(hash, _) => tried.(status := FundingGas, gasHash := Some(hash))
        case PolicyError => if k.family == Evm then tried.(status := Blocked, reason := OtherReason) else tried
        case OtherError => tried),
       sends + [Send(Gas, row.attempts + 1, value)])
  }

  lemma {:induction false} CarryOne(row: Row, sends: seq<Send>, a: Action)
    ensures Carry(row, sends, [a]) == (Write(row, a), sends + Handed(row, a))
  {
    CarryCons(row, sends, a, []);
    assert [a] + [] == [a];
  }

  lemma {:induction false} TransferEnds(k: Kind, row: Row, sends: seq<Send>, value: nat, answer: Answer)
    ensures Carry(row, sends, [Begin] + TransferPlan(k, value, answer)) == HandedOver(k, row, sends, value, answer)
  {
    var begun := Write(row, Begin);
    var rest := TransferPlan(k, value, answer)[1..];
    CarryCons(row, sends, Begin, TransferPlan(k, value, answer));
    assert sends + [] == sends;
    CarryCons(begun, sends, SendTransfer(value), rest);
    var sent := sends + [Send(Transfer, begun.attempts, value)];
    if rest != [] {
      CarryOne(begun, sent, rest[0]);
      assert rest == [rest[0]];
      assert sent + [] == sent;
    }
  }

  lemma {:induction false} TopUpEnds(k: Kind, row: Row, sends: seq<Send>, value: nat, answer: Answer)
    ensures Carry(row, sends, TopUpPlan(k, value, answer)) == ToppedUp(k, row, sends, value, answer)
  {
    assert sends + [] == sends;
    if k.family == Evm && (k.maxTopup == 0 || value > k.maxTopup) {
      CarryOne(row, sends, Block(OtherReason));
    } else {
      var rest := TopUpPlan(k, value, answer)[2..];
      var tried := Write(row, ReserveAttempt);
      assert TopUpPlan(k, value, answer) == [ReserveAttempt] + ([SendGas(value)] + rest);
      CarryCons(row, sends, ReserveAttempt, [SendGas(value)] + rest);
      CarryCons(tried, sends, SendGas(value), rest);
      var sent := sends + [Send(Gas, tried.attempts, value)];
      if rest != [] {
        CarryOne(tried, sent, rest[0]);
        assert rest == [rest[0]];
        assert sent + [] == sent;
      }
    }
  }

  // ----- one tick

  /** An undisturbed tick over a sweep that is not finished and has an attempt left ends where its plan does. */
  lemma {:induction false} TickEnds(k: Kind, s: Sweep, v: View)
    requires WorkerIdle(s) && s.row.status != Confirmed && s.row.status != Blocked && s.row.attempts < k.maxAttempts
    ensures Run(k, s, [Select, Start(v)] + Works(|Plan(k, s.row, v)|)) ==
            var (row, sends) := Carry(s.row, s.sends, Plan(k, s.row, v)); Sweep(row, None, [], sends, s.hooks, false)
  {
    var plan := Plan(k, s.row, v);
    var events := [Select, Start(v)] + Works(|plan|);
    RunOne(k, s, events);
    assert events[1..][1..] == Works(|plan|);
    RunOne(k, Step(k, s, Select), events[1..]);
    WorksCarry(k, s.row, s.sends, plan, s.hooks);
  }

  /** Nothing keeps the family from looking at the sweep. */
  predicate Admitted(k: Kind, v: View) {
    v.configured && (k.family == Evm ==> v.eligible) && (k.family == Solana ==> k.contract.None?)
  }

  lemma {:induction false} RefusedTick(k: Kind, row: Row, sends: seq<Send>, v: View)
    requires !Admitted(k, v)
    ensures Carry(row, sends, Plan(k, row, v)) ==
            Stopped(row, sends, if k.family == Evm && !v.eligible then EvmOnly else OtherReason)
  {
    CarryOne(row, sends, Block(OtherReason));
    CarryOne(row, sends, Block(EvmOnly));
    assert sends + [] == sends;
  }

  /**
   * What proves a sweep: on Solana and for tokens the recorded amount moved from the wallet to the treasury, in
   * native coin on EVM any amount to it, on Tron the receipt alone.
   */
  ghost predicate Proves(k: Kind, row: Row, receipt: Receipt) {
    && receipt.Deep?
    && (k.family == Solana || (k.family == Evm && k.contract.Some?) ==>
          Moved(k.contract, k.address, k.treasury, row.rawAmount) in receipt.moves)
    && (k.family == Evm && k.contract.None? ==>
          exists m :: m in receipt.moves && m.contract == None && m.destination == k.treasury && m.value > 0)
  }

  lemma {:induction false} MatchesAsProved(k: Kind, row: Row, moves: seq<Moved>)
    ensures k.family == Tron || MatchesReceipt(k, row, moves) <==> Proves(k, row, Deep(moves))
  {
    var moved := Moved(k.contract, k.address, k.treasury, row.rawAmount);
    if moved in moves {
      var i :| 0 <= i < |moves| && moves[i] == moved;
      assert IsSweepTransfer(k, row, moves[i]);
    }
    if m :| m in moves && m.contract == None && m.destination == k.treasury && m.value > 0 {
      var i :| 0 <= i < |moves| && moves[i] == m;
    }
  }

  /**
   * A broadcast sweep with its hash is confirmed by what proves it, blocked by what refutes it and left otherwise;
   * without the hash EVM leaves it.
   */
  lemma {:induction false} BroadcastedTick(k: Kind, row: Row, sends: seq<Send>, v: View)
    requires Admitted(k, v) && row.status == Broadcasted && (row.txHash.Some? || k.family == Evm)
    ensures Carry(row, sends, Plan(k, row, v)) ==
            if row.txHash.None? then (row, sends)
            else if Proves(k, row, v.receipt) then (row.(status := Confirmed, reason := NoReason), sends)
            else if v.receipt.Deep? || (v.receipt.Reverted? && k.family != Solana)
              then Stopped(row, sends, OtherReason)
            else (row, sends)
  {
    CarryOne(row, sends, Block(OtherReason));
    CarryOne(row, sends, Confirm);
    assert sends + [] == sends;
    if v.receipt.Deep? {
      MatchesAsProved(k, row, v.receipt.moves);
    }
  }

  /** A sweep left BROADCASTING on EVM or Solana takes the provider's hash, or is blocked if none can come. */
  lemma {:induction false} ResumedTick(k: Kind, row: Row, sends: seq<Send>, v: View)
    requires Admitted(k, v) && k.family != Tron && row.status == Broadcasting
    ensures Carry(row, sends, Plan(k, row, v)) ==
            if row.requestId.Some? && v.provider.ProviderHash? then
              (row.(status := Broadcasted, txHash := Some(v.provider.hash)), sends)
            else if row.requestId.None? || v.provider.ProviderFailed? then Stopped(row, sends, OtherReason)
            else (row, sends)
  {
    CarryOne(row, sends, Block(OtherReason));
    if v.provider.ProviderHash? {
      CarryOne(row, sends, StoreBroadcast(v.provider.hash, None));
    }
    assert sends + [] == sends;
  }

  /** On Solana the whole amount goes out once the wallet holds it and the fee; until then it is topped up to that. */
  lemma {:induction false} SolanaTick(k: Kind, row: Row, sends: seq<Send>, v: View)
    requires k.family == Solana && Admitted(k, v) && (row.status == Broadcasted ==> row.txHash.None?)
    requires row.status != Broadcasting
    ensures v.nativeBalance >= row.rawAmount + k.feeReserve ==>
              Carry(row, sends, Plan(k, row, v)) == HandedOver(k, row, sends, row.rawAmount, v.answer)
    ensures v.nativeBalance < row.rawAmount + k.feeReserve ==>
              exists value: nat :: v.nativeBalance + value == row.rawAmount + k.feeReserve &&
                Carry(row, sends, Plan(k, row, v)) == ToppedUp(k, row, sends, value, v.gasAnswer)
  {
    if v.nativeBalance >= row.rawAmount + k.feeReserve {
      TransferEnds(k, row, sends, row.rawAmount, v.answer);
    } else {
      TopUpEnds(k, row, sends, row.rawAmount + k.feeReserve - v.nativeBalance, v.gasAnswer);
    }
  }

  lemma {:induction false} TronAmountEnds(k: Kind, row: Row, sends: seq<Send>, v: View, amount: nat)
    requires k.family == Tron
    ensures Carry(row.(rawAmount := amount), sends, TronAmountPlan(k, row, v, amount)) ==
            var r, cost := row.(rawAmount := amount), k.feeReserve + if k.contract.Some? then 0 else amount;
            if v.nativeBalance >= cost then HandedOver(k, r, sends, amount, v.answer)
            else if row.status != FundingGas || row.gasHash.None? then
              ToppedUp(k, r, sends, cost - v.nativeBalance, v.gasAnswer)
            else if v.fundingReceipt.Deep? then (r.(status := Pending, reason := NoReason), sends)
            else if v.fundingReceipt.Reverted? then Stopped(r, sends, OtherReason)
            else (r, sends)
  {
    var r, cost := row.(rawAmount := amount), k.feeReserve + if k.contract.Some? then 0 else amount;
    if v.nativeBalance >= cost {
      TransferEnds(k, r, sends, amount, v.answer);
    } else if row.status != FundingGas || row.gasHash.None? {
      TopUpEnds(k, r, sends, cost - v.nativeBalance, v.gasAnswer);
    } else {
      CarryOne(r, sends, Funded);
      CarryOne(r, sends, Block(OtherReason));
      assert sends + [] == sends;
    }
  }

  /**
   * On Tron a token sweep needs the fee in the wallet and sends the balance if less is left than recorded, a native
   * one needs its amount and the fee; a row waiting for its top-up is sent back to PENDING or blocked by its receipt.
   */
  lemma {:induction false} TronTick(k: Kind, row: Row, sends: seq<Send>, v: View)
    requires k.family == Tron && Admitted(k, v) && (row.status == Broadcasted ==> row.txHash.None?)
    ensures
      var amount := if k.contract.Some? && v.tokenBalance < row.rawAmount then v.tokenBalance else row.rawAmount;
      var r, cost := row.(rawAmount := amount), k.feeReserve + if k.contract.Some? then 0 else amount;
      Carry(row, sends, Plan(k, row, v)) ==
        if k.contract.Some? && v.tokenBalance == 0 then Stopped(row, sends, OtherReason)
        else if v.nativeBalance >= cost then HandedOver(k, r, sends, amount, v.answer)
        else if row.status != FundingGas || row.gasHash.None? then
          ToppedUp(k, r, sends, cost - v.nativeBalance, v.gasAnswer)
        else if v.fundingReceipt.Deep? then (r.(status := Pending, reason := NoReason), sends)
        else if v.fundingReceipt.Reverted? then Stopped(r, sends, OtherReason)
        else (r, sends)
  {
    var amount := if k.contract.Some? then Min(row.rawAmount, v.tokenBalance) else row.rawAmount;
    CarryOne(row, sends, Block(OtherReason));
    CarryCons(row, sends, Shrink(amount), TronAmountPlan(k, row, v, amount));
    assert sends + [] == sends;
    TronAmountEnds(k, row, sends, v, amount);
  }

  /** A native EVM sweep sends what is recorded or, if less is left above the gas reserve, all of that. */
  lemma {:induction false} EvmNativeTick(k: Kind, row: Row, sends: seq<Send>, v: View)
    requires k.family == Evm && k.contract.None? && Admitted(k, v)
    requires row.status != Broadcasted && row.status != Broadcasting
    ensures
      var value := if row.rawAmount + k.gasReserve <= v.nativeBalance then row.rawAmount
                   else v.nativeBalance - k.gasReserve;
      Carry(row, sends, Plan(k, row, v)) ==
        if v.prepared && value > 0 then HandedOver(k, row, sends, value, v.answer)
        else Stopped(row.(attempts := row.attempts + 1), sends, OtherReason)
  {
    CarryCons(row, sends, Begin, [Block(OtherReason)]);
    CarryOne(Write(row, Begin), sends + [], Block(OtherReason));
    assert sends + [] == sends;
    if v.nativeBalance > k.gasReserve && row.rawAmount > 0 {
      TransferEnds(k, row, sends, Min(row.rawAmount, v.nativeBalance - k.gasReserve), v.answer);
    }
  }

  /** A token sweep with its gas: the balance if less is left than recorded, and the record follows it. */
  function TokenEnd(k: Kind, row: Row, sends: seq<Send>, v: View): End {
    var value := if v.tokenBalance < row.rawAmount then v.tokenBalance else row.rawAmount;
    if v.prepared && v.tokenBalance > 0 then HandedOver(k, row.(rawAmount := value), sends, value, v.answer)
    else Stopped(row.(attempts := row.attempts + 1), sends, OtherReason)
  }

  lemma {:induction false} TokenBroadcastEnds(k: Kind, row: Row, sends: seq<Send>, v: View)
    requires k.family == Evm && k.contract.Some?
    ensures Carry(row, sends, EvmBroadcastPlan(k, row, v)) == TokenEnd(k, row, sends, v)
  {
    assert sends + [] == sends;
    if !v.prepared || v.tokenBalance == 0 {
      CarryCons(row, sends, Begin, [Block(OtherReason)]);
      CarryOne(Write(row, Begin), sends, Block(OtherReason));
    } else if v.tokenBalance < row.rawAmount {
      var transfer := TransferPlan(k, v.tokenBalance, v.answer);
      CarryCons(row, sends, Begin, [Shrink(v.tokenBalance)] + transfer);
      CarryCons(Write(row, Begin), sends, Shrink(v.tokenBalance), transfer);
      var shrunk := row.(rawAmount := v.tokenBalance);
      CarryCons(shrunk, sends, Begin, transfer);
      TransferEnds(k, shrunk, sends, v.tokenBalance, v.answer);
    } else {
      TransferEnds(k, row, sends, row.rawAmount, v.answer);
    }
  }

  /** A token sweep on EVM before its gas is there, and with it. */
  lemma {:induction false} EvmTokenTick(k: Kind, row: Row, sends: seq<Send>, v: View)
    requires k.family == Evm && k.contract.Some? && Admitted(k, v)
    requires row.status == Pending || v.nativeBalance >= k.requiredGas
    requires row.status == Pending || row.status == FundingGas
    ensures Carry(row, sends, Plan(k, row, v)) ==
            if v.nativeBalance < k.requiredGas then
              ToppedUp(k, row, sends, k.requiredGas - v.nativeBalance, v.gasAnswer)
            else if v.refreshedBalance < k.requiredGas then (row, sends)
            else TokenEnd(k, row, sends, v)
  {
    if v.nativeBalance < k.requiredGas {
      TopUpEnds(k, row, sends, k.requiredGas - v.nativeBalance, v.gasAnswer);
    } else {
      TokenBroadcastEnds(k, row, sends, v);
    }
  }

  /**
   * A token sweep waiting for its top-up: blocked if that reverted, back to PENDING and on once the gas is there, and
   * topped up again, reverted or not, while some but not all of the gas is there.
   */
  lemma {:induction false} FundingTick(k: Kind, row: Row, sends: seq<Send>, v: View)
    requires k.family == Evm && k.contract.Some? && Admitted(k, v)
    requires row.status == FundingGas && v.nativeBalance < k.requiredGas
    ensures
      var reverted := row.gasHash.Some? && v.fundingReverted;
      var r := if reverted then row.(status := Blocked, reason := OtherReason)
               else if v.fundedBalance >= k.requiredGas then row.(status := Pending, reason := NoReason) else row;
      Carry(row, sends, Plan(k, row, v)) ==
        if r.status == Pending then
          if v.refreshedBalance < k.requiredGas then (r, sends) else TokenEnd(k, r, sends, v)
        else if 0 < v.currentBalance < k.requiredGas then
          ToppedUp(k, r, sends, k.requiredGas - v.currentBalance, v.gasAnswer)
        else (r, sends)
  {
    assert sends + [] == sends;
    var reverted := row.gasHash.Some? && v.fundingReverted;
    if !reverted && v.fundedBalance >= k.requiredGas {
      var r := row.(status := Pending, reason := NoReason);
      CarryOne(row, sends, Funded);
      CarryCons(row, sends, Funded, EvmBroadcastPlan(k, row, v));
      TokenBroadcastEnds(k, r, sends, v);
      assert EvmBroadcastPlan(k, r, v) == EvmBroadcastPlan(k, row, v);
    } else {
      var r := if reverted then Write(row, Block(OtherReason)) else row;
      var missing := if 0 < v.currentBalance < k.requiredGas then k.requiredGas - v.currentBalance else 0;
      CarryOne(row, sends, Block(OtherReason));
      CarryCons(row, sends, Block(OtherReason), TopUpPlan(k, missing, v.gasAnswer));
      TopUpEnds(k, r, sends, missing, v.gasAnswer);
    }
  }

  // ----- what it takes to be confirmed

  lemma {:induction false} OnlyProofConfirms(k: Kind, row: Row, v: View)
    requires Confirm in Plan(k, row, v)
    ensures row.status == Broadcasted && row.txHash.Some? && Admitted(k, v) && Proves(k, row, v.receipt)
  {
    if v.receipt.Deep? {
      MatchesAsProved(k, row, v.receipt.moves);
    }
  }

  /** The row of a sweep, and what a webhook has seen of it, is CONFIRMED or about to be. */
  ghost predicate Marked(s: Sweep) {
    s.row.status == Confirmed || Confirm in s.todo || exists h :: h in s.hooks && h.seen.status == Confirmed
  }

  /** A tick that has selected the sweep broadcast, with its hash, reads a receipt that proves it. */
  ghost predicate ProvenBy(k: Kind, s: Sweep, e: Event) {
    && e.Start? && s.snapshot.Some? && s.snapshot.value.status == Broadcasted && s.snapshot.value.txHash.Some?
    && Admitted(k, e.view) && Proves(k, s.snapshot.value, e.view.receipt)
  }

  lemma {:induction false} StepMarks(k: Kind, s: Sweep, e: Event)
    requires Marked(Step(k, s, e)) && (s.snapshot.Some? ==> s.snapshot.value.status != Confirmed)
    ensures Marked(s) || ProvenBy(k, s, e)
  {
    if e.Start? && s.snapshot.Some? && Confirm in Plan(k, s.snapshot.value, e.view) {
      OnlyProofConfirms(k, s.snapshot.value, e.view);
    }
  }

  /** The event at i reaches the sweep and reads a receipt that proves it as the tick has selected it. */
  ghost predicate ProvenAt(k: Kind, rawAmount: nat, events: seq<Event>, i: nat) {
    i < |events| && ProvenBy(k, Run(k, Fresh(rawAmount), events[..i]), events[i])
  }

  /** In every run, of every family and whatever webhooks write back, only a receipt that proves it confirms a sweep. */
  lemma {:induction false} ConfirmedOnlyByProof(k: Kind, rawAmount: nat, events: seq<Event>)
    requires Marked(Run(k, Fresh(rawAmount), events))
    ensures exists i: nat :: ProvenAt(k, rawAmount, events, i)
    decreases |events|
  {
    if events != [] {
      var n := |events| - 1;
      var s := Run(k, Fresh(rawAmount), events[..n]);
      assert events == events[..n] + [events[n]];
      RunConcat(k, Fresh(rawAmount), events[..n], [events[n]]);
      RunOne(k, s, [events[n]]);
      var st := RunKeepsAccounts(k, Fresh(rawAmount), events[..n], Open);
      StepMarks(k, s, events[n]);
      if Marked(s) {
        ConfirmedOnlyByProof(k, rawAmount, events[..n]);
        var i: nat :| ProvenAt(k, rawAmount, events[..n], i);
        assert events[..n][..i] == events[..i];
        assert ProvenAt(k, rawAmount, events, i);
      } else {
        assert ProvenAt(k, rawAmount, events, n);
      }
    }
  }
}
