/**
 * Where the guarantees of a sweep end: what opens a sent sweep again, when a broadcast sweep can still be
 * confirmed, and what a reverted top-up leads to.
 */
module SweepLimits {
  import opened Wrappers
  import opened Sweeps
  import opened SweepSafety
  import opened SweepTicks

  // ----- one more transfer

  /** A row the next tick sends a transfer from, if it can. */
  predicate ToSend(k: Kind, row: Row) {
    || row.status == Pending || row.status == FundingGas
    || (k.family == Solana && row.status == Broadcasted && row.txHash.None?)
  }

  /** An attempt is left and there is something the family can send. */
  predicate CanSend(k: Kind, row: Row) {
    && row.attempts < k.maxAttempts
    && (k.family == Evm && k.contract.None? ==> row.rawAmount > 0)
    && (k.family == Solana ==> k.contract.None?)
  }

  /** A view on which a sweep goes out: an eligible address with all the gas and tokens it needs. */
  function Clear(k: Kind, rawAmount: nat): View {
    var native := rawAmount + k.gasReserve + k.requiredGas + k.feeReserve;
    View(true, true, Unmined, ProviderUnknown, native, false, native, native, native, OtherError, Unmined, true,
         rawAmount + 1, Sent("h", None))
  }

  /** One tick that carries the sweep out. */
  function Out(k: Kind, rawAmount: nat): seq<Event> {
    [Select, Start(Clear(k, rawAmount))] + [Work(Done, false), Work(Done, false), Work(Done, false)]
  }

  lemma {:induction false} RunThree(k: Kind, s: Sweep, a: Event, b: Event, c: Event)
    ensures Run(k, s, [a, b, c]) == Step(k, Step(k, Step(k, s, a), b), c)
  {
    RunOne(k, s, [a, b, c]);
    RunTwo(k, Step(k, s, a), b, c);
    assert [a, b, c][1..] == [b, c];
  }

  lemma {:induction false} RunTwo(k: Kind, s: Sweep, a: Event, b: Event)
    ensures Run(k, s, [a, b]) == Step(k, Step(k, s, a), b)
  {
    RunOne(k, s, [a, b]);
    assert [a, b][1..] == [b];
    RunOne(k, Step(k, s, a), [b]);
    assert [b][1..] == [];
  }

  /** The row and the sends after a sweep has gone out. */
  function SentOnce(k: Kind, s: Sweep): Sweep {
    s.(row := s.row.(status := Broadcasted, attempts := s.row.attempts + 1, txHash := Some("h")),
       sends := s.sends + [Send(Transfer, s.row.attempts + 1, s.row.rawAmount)])
  }

  lemma {:induction false} StartsOut(k: Kind, s: Sweep)
    requires k.family != Tron && WorkerIdle(s) && ToSend(k, s.row) && CanSend(k, s.row)
    ensures Run(k, s, [Select, Start(Clear(k, s.row.rawAmount))]) ==
            s.(todo := [Begin, SendTransfer(s.row.rawAmount), StoreBroadcast("h", None)])
  {
    RunTwo(k, s, Select, Start(Clear(k, s.row.rawAmount)));
  }

  lemma {:induction false} ThreeCarried(k: Kind, s: Sweep)
    requires |s.todo| == 3
    ensures Run(k, s, [Work(Done, false), Work(Done, false), Work(Done, false)]) == Carried(Carried(Carried(s)))
  {
    RunThree(k, s, Work(Done, false), Work(Done, false), Work(Done, false));
  }

  lemma {:induction false} CarriedOut(k: Kind, s: Sweep)
    requires WorkerIdle(s)
    ensures var started := s.(todo := [Begin, SendTransfer(s.row.rawAmount), StoreBroadcast("h", None)]);
            Carried(Carried(Carried(started))) == SentOnce(k, s)
    ensures Transfers(SentOnce(k, s).sends) == Transfers(s.sends) + 1
  {
    assert s.sends + [] == s.sends;
    TransfersSnoc(s.sends, Send(Transfer, s.row.attempts + 1, s.row.rawAmount));
  }

  lemma {:induction false} GoesOut(k: Kind, s: Sweep)
    requires k.family != Tron && WorkerIdle(s) && ToSend(k, s.row) && CanSend(k, s.row)
    ensures Run(k, s, Out(k, s.row.rawAmount)) == SentOnce(k, s)
    ensures Transfers(SentOnce(k, s).sends) == Transfers(s.sends) + 1
  {
    var start := [Select, Start(Clear(k, s.row.rawAmount))];
    RunConcat(k, s, start, [Work(Done, false), Work(Done, false), Work(Done, false)]);
    StartsOut(k, s);
    ThreeCarried(k, Run(k, s, start));
    CarriedOut(k, s);
  }

  /** Events without a webhook write and without an ineligible start open nothing. */
  lemma {:induction false} QuietIsSteady(k: Kind, s: Sweep, events: seq<Event>)
    requires forall i | 0 <= i < |events| :: !events[i].WebhookWrite? && (events[i].Start? ==> events[i].view.eligible)
    ensures Steady(k, s, events)
    decreases |events|
  {
    if events != [] {
      QuietIsSteady(k, Step(k, s, events[0]), events[1..]);
    }
  }

  // ----- stale webhooks

  /** What carries an opened row out again: a requeue first, if it is blocked for its address. */
  function Again(k: Kind, row: Row): seq<Event> {
    (if Recallable(row) then [Recall, Requeue(true)] else []) + Out(k, row.rawAmount)
  }

  lemma {:induction false} OpenedGoesOut(k: Kind, s: Sweep)
    requires k.family != Tron && WorkerIdle(s) && !Spent(k, s.row) && CanSend(k, s.row)
    ensures Steady(k, s, Again(k, s.row))
    ensures Transfers(Run(k, s, Again(k, s.row)).sends) == Transfers(s.sends) + 1
  {
    QuietIsSteady(k, s, Again(k, s.row));
    if Recallable(s.row) {
      RunConcat(k, s, [Recall, Requeue(true)], Out(k, s.row.rawAmount));
      RunTwo(k, s, Recall, Requeue(true));
      GoesOut(k, s.(row := s.row.(status := Pending, reason := NoReason)));
    } else {
      assert [] + Out(k, s.row.rawAmount) == Out(k, s.row.rawAmount);
      GoesOut(k, s);
    }
  }

  /** Nothing the worker holds or could read leads to a transfer. */
  ghost predicate Mute(k: Kind, s: Sweep) {
    && !CanSend(k, s.row)
    && (s.snapshot.Some? ==> !CanSend(k, s.snapshot.value) && s.snapshot.value.attempts < k.maxAttempts)
    && (forall i | 0 <= i < |s.todo| ::
        !s.todo[i].SendTransfer? && (k.contract.None? && k.family == Evm ==> !s.todo[i].Shrink?))
  }

  lemma {:induction false} MuteWork(k: Kind, s: Sweep)
    requires k.family != Tron && Mute(k, s) && s.todo != []
    ensures Mute(k, Carried(s)) && Transfers(Carried(s).sends) == Transfers(s.sends)
  {
    assert !s.todo[0].SendTransfer?;
    if s.todo[0].SendGas? {
      TransfersSnoc(s.sends, Handed(s.row, s.todo[0])[0]);
    } else {
      assert s.sends + [] == s.sends;
    }
  }

  lemma {:induction false} MuteWorkStep(k: Kind, s: Sweep, e: Event)
    requires k.family != Tron && Mute(k, s) && e.Work?
    ensures Mute(k, Step(k, s, e)) && Transfers(Step(k, s, e).sends) == Transfers(s.sends)
  {
    if s.todo != [] {
      MuteWork(k, s);
      assert Step(k, s, e) in {Carried(s), Handled(s, e.block), Handled(Carried(s), e.block)};
    }
  }

  lemma {:induction false} MuteStep(k: Kind, s: Sweep, e: Event)
    requires k.family != Tron && Mute(k, s)
    ensures Mute(k, Step(k, s, e)) && Transfers(Step(k, s, e).sends) == Transfers(s.sends)
  {
    if e.Work? {
      MuteWorkStep(k, s, e);
    }
  }

  lemma {:induction false} MuteRun(k: Kind, s: Sweep, events: seq<Event>)
    requires k.family != Tron && Mute(k, s)
    ensures Transfers(Run(k, s, events).sends) == Transfers(s.sends)
    decreases |events|
  {
    if events != [] {
      MuteStep(k, s, events[0]);
      MuteRun(k, Step(k, s, events[0]), events[1..]);
    }
  }

  /** From here on, without opening the sweep once more, a second transfer can be handed over. */
  ghost predicate SendsTwice(k: Kind, s: Sweep) {
    exists more :: Steady(k, s, more) && Transfers(Run(k, s, more).sends) > 1
  }

  lemma {:induction false} SpentSendsOnce(k: Kind, s: Sweep, st: Stage)
    requires k.family != Tron && OneTransfer(k, s, st)
    ensures !SendsTwice(k, s)
  {
    forall more | Steady(k, s, more) ensures Transfers(Run(k, s, more).sends) <= 1 {
      var st' := RunKeepsOneTransfer(k, s, more, st);
    }
  }

  /**
   * In every run with a transfer out and the worker at rest, the write of an open webhook lets the sweep be
   * sent a second time exactly when it leaves a row that is not spent and another attempt can send it.
   */
  lemma {:induction false} StaleWriteIsExact(k: Kind, rawAmount: nat, events: seq<Event>, i: nat)
    requires k.family != Tron && Steady(k, Fresh(rawAmount), events)
    requires var s := Run(k, Fresh(rawAmount), events);
             WorkerIdle(s) && Transfers(s.sends) == 1 && i < |s.hooks|
    ensures var s := Run(k, Fresh(rawAmount), events);
            SendsTwice(k, Step(k, s, WebhookWrite(i))) <==>
            !Spent(k, RowAfter(s.row, s.hooks[i])) && CanSend(k, s.row)
  {
    var s := Run(k, Fresh(rawAmount), events);
    var st := RunKeepsOneTransfer(k, Fresh(rawAmount), events, Open);
    var s' := Step(k, s, WebhookWrite(i));
    if Spent(k, s'.row) {
      var st' := StepKeepsOneTransfer(k, s, WebhookWrite(i), st);
      SpentSendsOnce(k, s', st');
    } else if !CanSend(k, s.row) {
      forall more ensures Transfers(Run(k, s', more).sends) == 1 {
        MuteRun(k, s', more);
      }
    } else {
      OpenedGoesOut(k, s');
      assert Steady(k, s', Again(k, s'.row));
    }
  }

  /** A wallet without gas, which custody tops up. */
  function Dry(k: Kind): View {
    View(true, true, Unmined, ProviderUnknown, 0, false, 0, 0, 0, Sent("g", None), Unmined, true, 0, OtherError)
  }

  function Filling(k: Kind): seq<Event> {
    [Select, Start(Dry(k))] + [Work(Done, false), Work(Done, false), Work(Done, false)]
  }

  /** The webhook of the top-up reads the row, the sweep goes out, the webhook writes, another tick follows. */
  function Overtaken(k: Kind, rawAmount: nat): seq<Event> {
    [WebhookRead(true, false, Some("g"), None)] + (Out(k, rawAmount) + ([WebhookWrite(0)] + Out(k, rawAmount)))
  }

  /** The row and the sends after a top-up. */
  function ToppedUp(k: Kind, s: Sweep): Sweep {
    s.(row := s.row.(status := FundingGas, attempts := s.row.attempts + 1, gasHash := Some("g")),
       sends := s.sends + [Send(Gas, s.row.attempts + 1, k.requiredGas)])
  }

  lemma {:induction false} Fills(k: Kind, s: Sweep)
    requires k.family == Evm && k.contract.Some? && 0 < k.requiredGas <= k.maxTopup
    requires WorkerIdle(s) && s.row.status == Pending && s.row.attempts < k.maxAttempts
    ensures Run(k, s, Filling(k)) == ToppedUp(k, s)
    ensures Transfers(ToppedUp(k, s).sends) == Transfers(s.sends)
  {
    var start := [Select, Start(Dry(k))];
    RunConcat(k, s, start, [Work(Done, false), Work(Done, false), Work(Done, false)]);
    RunTwo(k, s, Select, start[1]);
    var s2 := Run(k, s, start);
    assert s2.todo == [ReserveAttempt, SendGas(k.requiredGas), StoreFunding("g")];
    RunThree(k, s2, Work(Done, false), Work(Done, false), Work(Done, false));
    assert s2.sends + [] == s2.sends;
    TransfersSnoc(s.sends, Send(Gas, s.row.attempts + 1, k.requiredGas));
  }

  /** A gas webhook overtaken by the transfer: in every state that waits for gas the sweep goes out twice. */
  lemma {:induction false} OvertakenSendsTwice(k: Kind, s: Sweep)
    requires k.family == Evm && k.contract.Some? && WorkerIdle(s) && s.row.status == FundingGas && s.hooks == []
    requires s.row.attempts + 1 < k.maxAttempts
    ensures Transfers(Run(k, s, Overtaken(k, s.row.rawAmount)).sends) == Transfers(s.sends) + 2
  {
    var out := Out(k, s.row.rawAmount);
    var read := WebhookRead(true, false, Some("g"), None);
    RunConcat(k, s, [read], out + ([WebhookWrite(0)] + out));
    RunOne(k, s, [read]);
    var s2 := Step(k, s, read);
    RunConcat(k, s2, out, [WebhookWrite(0)] + out);
    GoesOut(k, s2);
    WrittenBack(k, SentOnce(k, s2), s.row);
  }

  lemma {:induction false} WrittenBack(k: Kind, s: Sweep, seen: Row)
    requires k.family == Evm && k.contract.Some? && WorkerIdle(s) && s.row.attempts < k.maxAttempts
    requires s.hooks == [Hook(true, false, Some("g"), None, seen)] && seen.status == FundingGas
    ensures Transfers(Run(k, s, [WebhookWrite(0)] + Out(k, s.row.rawAmount)).sends) == Transfers(s.sends) + 1
  {
    RunConcat(k, s, [WebhookWrite(0)], Out(k, s.row.rawAmount));
    RunOne(k, s, [WebhookWrite(0)]);
    GoesOut(k, Step(k, s, WebhookWrite(0)));
  }

  /**
   * Fixed eligibility alone is not enough: every EVM token sweep with three attempts has a run in which a gas
   * webhook reads the row before the transfer, writes it back afterwards, and the sweep is sent twice.
   */
  lemma {:induction false} StaleGasWebhookSendsTwice(k: Kind, rawAmount: nat)
    requires k.family == Evm && k.contract.Some? && 0 < k.requiredGas <= k.maxTopup && k.maxAttempts >= 3
    ensures FixedEligibility(Filling(k) + Overtaken(k, rawAmount), true)
    ensures Transfers(Run(k, Fresh(rawAmount), Filling(k) + Overtaken(k, rawAmount)).sends) == 2
  {
    var s := Fresh(rawAmount);
    Fills(k, s);
    RunConcat(k, s, Filling(k), Overtaken(k, rawAmount));
    OvertakenSendsTwice(k, ToppedUp(k, s));
  }

  // ----- eligibility

  /** A tick that finds the address ineligible, whatever else it reads. */
  function Found(v: View): seq<Event> { [Select, Start(v), Work(Done, false)] }

  /** Such a tick, a requeue that finds the address eligible, and another tick. */
  function Flip(k: Kind, v: View, rawAmount: nat): seq<Event> {
    Found(v) + ([Recall, Requeue(true)] + Out(k, rawAmount))
  }

  lemma {:induction false} FoundIneligible(k: Kind, s: Sweep, v: View)
    requires k.family == Evm && WorkerIdle(s) && Selectable(k, s.row) && !v.eligible
    ensures Run(k, s, Found(v)) == s.(row := s.row.(status := Blocked, reason := EvmOnly))
  {
    RunThree(k, s, Select, Start(v), Work(Done, false));
    assert s.sends + [] == s.sends;
    assert Step(k, Step(k, s, Select), Start(v)).todo == [Block(EvmOnly)];
  }

  lemma {:induction false} FoundUnselected(k: Kind, s: Sweep, v: View)
    requires WorkerIdle(s) && !Selectable(k, s.row)
    ensures Run(k, s, Found(v)) == s
  {
    RunThree(k, s, Select, Start(v), Work(Done, false));
  }

  /**
   * In every state with an EVM transfer in flight: if the address is found ineligible once and eligible
   * again, the sweep, native or token, is handed to custody a second time.
   */
  lemma {:induction false} EligibilityFlipSendsAgain(k: Kind, s: Sweep, v: View)
    requires k.family == Evm && WorkerIdle(s) && CanSend(k, s.row) && !v.eligible
    requires s.row.status == Broadcasting || s.row.status == Broadcasted
    ensures Transfers(Run(k, s, Flip(k, v, s.row.rawAmount)).sends) == Transfers(s.sends) + 1
  {
    var blocked := s.(row := s.row.(status := Blocked, reason := EvmOnly));
    FoundIneligible(k, s, v);
    RunConcat(k, s, Found(v), [Recall, Requeue(true)] + Out(k, s.row.rawAmount));
    OpenedGoesOut(k, blocked);
  }

  /**
   * In every EVM run with a transfer out and the worker at rest, a tick that finds the address ineligible lets
   * the sweep be sent a second time exactly when it is still in flight and another attempt can send it.
   */
  lemma {:induction false} IneligibleTickIsExact(k: Kind, rawAmount: nat, events: seq<Event>, v: View)
    requires k.family == Evm && Steady(k, Fresh(rawAmount), events) && !v.eligible
    requires var s := Run(k, Fresh(rawAmount), events); WorkerIdle(s) && Transfers(s.sends) == 1
    ensures var s := Run(k, Fresh(rawAmount), events);
            SendsTwice(k, Run(k, s, Found(v))) <==>
            (s.row.status == Broadcasting || s.row.status == Broadcasted) && CanSend(k, s.row)
  {
    var s := Run(k, Fresh(rawAmount), events);
    var st := RunKeepsOneTransfer(k, Fresh(rawAmount), events, Open);
    var s' := Run(k, s, Found(v));
    if !Selectable(k, s.row) {
      FoundUnselected(k, s, v);
      SpentSendsOnce(k, s, st);
    } else {
      FoundIneligible(k, s, v);
      if CanSend(k, s.row) {
        OpenedGoesOut(k, s');
        assert Steady(k, s', Again(k, s'.row));
      } else {
        forall more ensures Transfers(Run(k, s', more).sends) == 1 {
          MuteRun(k, s', more);
        }
      }
    }
  }

  // ----- confirmation

  /** Ticks, crashes and requeues, but nothing from the provider. */
  predicate NoWebhooks(events: seq<Event>) {
    forall i | 0 <= i < |events| :: !events[i].WebhookRead? && !events[i].WebhookWrite? && !events[i].WebhookAbort?
  }

  /** A sweep broadcast on its last attempt is no longer read by the worker. */
  lemma {:induction false} LastAttemptIsNeverConfirmed(k: Kind, s: Sweep, events: seq<Event>)
    requires WorkerIdle(s) && s.row.status == Broadcasted && s.row.attempts >= k.maxAttempts && NoWebhooks(events)
    ensures Run(k, s, events) == s
    decreases |events|
  {
    if events != [] {
      LastAttemptIsNeverConfirmed(k, s, events[1..]);
    }
  }

  /** A broadcast EVM row without a hash, or one blocked for good; ticks of an eligible address do not leave these. */
  ghost predicate Hashless(s: Sweep) {
    && ((s.row.status == Broadcasted && s.row.txHash.None?) || (s.row.status == Blocked && s.row.reason == OtherReason))
    && !s.recalled
    && (s.snapshot.Some? ==> s.snapshot.value.status == Broadcasted && s.snapshot.value.txHash.None?)
    && (forall i | 0 <= i < |s.todo| :: s.todo[i] == Block(OtherReason))
  }

  lemma {:induction false} HashlessIsNeverConfirmed(k: Kind, s: Sweep, events: seq<Event>)
    requires k.family == Evm && Hashless(s) && NoWebhooks(events) && FixedEligibility(events, true)
    ensures Hashless(Run(k, s, events))
    decreases |events|
  {
    if events != [] {
      HashlessIsNeverConfirmed(k, Step(k, s, events[0]), events[1..]);
    }
  }

  /** Some ticks of an eligible address confirm the sweep, without a word from the provider. */
  ghost predicate TicksConfirm(k: Kind, s: Sweep) {
    exists events :: NoWebhooks(events) && FixedEligibility(events, true) && Run(k, s, events).row.status == Confirmed
  }

  /**
   * In every run: ticks alone can confirm a broadcast sweep, whose transfer a deep receipt shows, exactly
   * when an attempt is left and its hash is stored.
   */
  lemma {:induction false} ConfirmedByTicks(k: Kind, rawAmount: nat, events: seq<Event>, v: View, i: nat)
    requires k.family != Tron && Steady(k, Fresh(rawAmount), events)
    requires v.eligible && v.configured && (k.family == Solana ==> k.contract.None?)
    requires var s := Run(k, Fresh(rawAmount), events);
             && WorkerIdle(s) && s.row.status == Broadcasted && i < |s.sends| && s.sends[i].kind == Transfer
             && s.sends[i].value > 0 && Shows(k, v, s.sends[i].value)
    ensures var s := Run(k, Fresh(rawAmount), events);
            TicksConfirm(k, s) <==> s.row.attempts < k.maxAttempts && s.row.txHash.Some?
  {
    var s := Run(k, Fresh(rawAmount), events);
    var st := RunKeepsOneTransfer(k, Fresh(rawAmount), events, Open);
    ReceiptConfirms(k, s, st, v, i);
    if s.row.attempts >= k.maxAttempts {
      forall more | NoWebhooks(more) ensures Run(k, s, more).row.status != Confirmed {
        LastAttemptIsNeverConfirmed(k, s, more);
      }
    } else if s.row.txHash.None? {
      if Transfers(s.sends) == 0 {
        NoTransfers(s.sends);
      }
      forall more | NoWebhooks(more) && FixedEligibility(more, true) ensures Run(k, s, more).row.status != Confirmed {
        HashlessIsNeverConfirmed(k, s, more);
      }
    } else {
      var tick := [Select, Start(v), Work(Done, false)];
      RunThree(k, s, tick[0], tick[1], tick[2]);
      assert NoWebhooks(tick) && FixedEligibility(tick, true);
    }
  }

  // ----- reverted top-ups

  /** A token sweep that waits for gas which did not arrive, because the top-up reverted. */
  predicate TopUpReverted(k: Kind, row: Row, v: View) {
    && k.family == Evm && k.contract.Some? && v.eligible && v.configured
    && row.status == FundingGas && row.gasHash.Some? && v.fundingReverted && v.nativeBalance < k.requiredGas
  }

  /** The guard under which the same run tops up once more. */
  predicate TopsUpAgain(k: Kind, v: View) {
    0 < v.currentBalance < k.requiredGas && k.requiredGas - v.currentBalance <= k.maxTopup
  }

  /** The run blocks the sweep first, and sends another top-up exactly under the guard. */
  lemma {:induction false} RevertedTopUpPlan(k: Kind, row: Row, v: View)
    requires TopUpReverted(k, row, v)
    ensures var plan := EvmPlan(k, row, v);
            && plan != [] && plan[0] == Block(OtherReason)
            && ((exists i :: 0 <= i < |plan| && plan[i].SendGas?) <==> TopsUpAgain(k, v))
  {
    var plan := EvmPlan(k, row, v);
    if TopsUpAgain(k, v) {
      assert plan[2] == SendGas(k.requiredGas - v.currentBalance);
    }
  }

  /** Carried out undisturbed, the run ends FUNDING_GAS again exactly if the second top-up is sent and answered. */
  lemma {:induction false} RevertedTopUpUnblocks(k: Kind, s: Sweep, v: View)
    requires WorkerIdle(s) && Selectable(k, s.row) && TopUpReverted(k, s.row, v)
    ensures
      var s' := Run(k, s, [Select, Start(v)] + Works(|EvmPlan(k, s.row, v)|));
      && WorkerIdle(s')
      && s'.row.status == (if TopsUpAgain(k, v) && v.gasAnswer.Sent? then FundingGas else Blocked)
      && |s'.sends| == |s.sends| + if TopsUpAgain(k, v) then 1 else 0
  {
    var plan := EvmPlan(k, s.row, v);
    RunConcat(k, s, [Select, Start(v)], Works(|plan|));
    RunTwo(k, s, Select, Start(v));
    WorksCarry(k, s.row, s.sends, plan, s.hooks);
    var blocked := Write(s.row, Block(OtherReason));
    if 0 < v.currentBalance < k.requiredGas {
      TopUpEnds(k, blocked, s.sends + [], k.requiredGas - v.currentBalance, v.gasAnswer);
      CarryCons(s.row, s.sends, Block(OtherReason), TopUpPlan(k, k.requiredGas - v.currentBalance, v.gasAnswer));
    } else {
      CarryCons(s.row, s.sends, Block(OtherReason), []);
    }
  }
}
