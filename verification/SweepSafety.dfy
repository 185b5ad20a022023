/**
 * What every run of a sweep keeps: one new attempt before one custody send on every family,
 * at most one transfer on EVM and Solana, and a recorded amount equal to the amount sent.
 */
module SweepSafety {
  import opened Wrappers
  import opened Sweeps

  // ----- the protocol every plan follows

  datatype Stage = Open | GasArmed | GasSent | TransferArmed | TransferSent

  /** Native EVM sweeps may send less than the recorded amount; every other sweep sends exactly it. */
  predicate ValueOk(k: Kind, value: nat, rawAmount: nat) {
    if k.family == Evm && k.contract.None? then value <= rawAmount else value == rawAmount
  }

  /** One action is allowed at a stage; where the stage goes. */
  predicate Allowed(k: Kind, a: Action, st: Stage, rawAmount: nat) {
    match a
    case Funded => st == Open
    case ReserveAttempt => st == Open
    case SendGas(_) => st == GasArmed
    case StoreFunding(_) => st == GasSent
    case Begin => st == Open
    case Shrink(r) => (st == Open || st == TransferArmed) && r < rawAmount
    case SendTransfer(value) => st == TransferArmed && ValueOk(k, value, rawAmount)
    case StoreBroadcast(_, _) => st == Open || st == TransferSent
    case Retry => st == TransferSent && k.family == Tron
    case Confirm => st == Open || st == TransferSent
    case Block(reason) => reason == OtherReason || (reason == EvmOnly && st == Open && k.family == Evm)
  }

  function Next(a: Action, st: Stage): Stage {
    match a
    case ReserveAttempt => GasArmed
    case SendGas(_) => GasSent
    case Begin => TransferArmed
    case SendTransfer(_) => TransferSent
    case StoreBroadcast(_, _) => TransferSent
    case Confirm => TransferSent
    case _ => st
  }

  function NextRaw(a: Action, rawAmount: nat): nat {
    if a.Shrink? then a.rawAmount else rawAmount
  }

  predicate Follows(k: Kind, todo: seq<Action>, st: Stage, rawAmount: nat)
    decreases |todo|
  {
    todo == [] ||
    (Allowed(k, todo[0], st, rawAmount) && Follows(k, todo[1..], Next(todo[0], st), NextRaw(todo[0], rawAmount)))
  }

  lemma {:induction false} FollowsCons(k: Kind, a: Action, rest: seq<Action>, st: Stage, rawAmount: nat)
    ensures Follows(k, [a] + rest, st, rawAmount) <==>
            Allowed(k, a, st, rawAmount) && Follows(k, rest, Next(a, st), NextRaw(a, rawAmount))
  {
    assert ([a] + rest)[1..] == rest;
  }

  lemma {:induction false} OneFollows(k: Kind, a: Action, st: Stage, rawAmount: nat)
    ensures Follows(k, [a], st, rawAmount) <==> Allowed(k, a, st, rawAmount)
  {
    FollowsCons(k, a, [], st, rawAmount);
    assert [a] == [a] + [];
  }

  lemma {:induction false} TransferPlanFollows(k: Kind, value: nat, answer: Answer, rawAmount: nat)
    requires ValueOk(k, value, rawAmount)
    ensures Follows(k, TransferPlan(k, value, answer), TransferArmed, rawAmount)
  {
    var rest := TransferPlan(k, value, answer)[1..];
    if rest != [] {
      OneFollows(k, rest[0], TransferSent, rawAmount);
    }
    FollowsCons(k, SendTransfer(value), rest, TransferArmed, rawAmount);
  }

  lemma {:induction false} TopUpPlanFollows(k: Kind, value: nat, answer: Answer, rawAmount: nat)
    ensures Follows(k, TopUpPlan(k, value, answer), Open, rawAmount)
  {
    var plan := TopUpPlan(k, value, answer);
    if plan == [Block(OtherReason)] {
      OneFollows(k, plan[0], Open, rawAmount);
    } else {
      var rest := plan[2..];
      if rest != [] {
        OneFollows(k, rest[0], GasSent, rawAmount);
      }
      FollowsCons(k, SendGas(value), rest, GasArmed, rawAmount);
      FollowsCons(k, ReserveAttempt, [SendGas(value)] + rest, Open, rawAmount);
      assert plan == [ReserveAttempt] + ([SendGas(value)] + rest);
    }
  }

  lemma {:induction false} EvmBroadcastFollows(k: Kind, row: Row, v: View)
    requires k.family == Evm
    ensures Follows(k, EvmBroadcastPlan(k, row, v), Open, row.rawAmount)
  {
    var rest := EvmBroadcastPlan(k, row, v)[1..];
    if rest == [Block(OtherReason)] {
      OneFollows(k, rest[0], TransferArmed, row.rawAmount);
    } else if k.contract.Some? && v.tokenBalance < row.rawAmount {
      TransferPlanFollows(k, v.tokenBalance, v.answer, v.tokenBalance);
      FollowsCons(k, Shrink(v.tokenBalance), TransferPlan(k, v.tokenBalance, v.answer), TransferArmed, row.rawAmount);
    } else {
      TransferPlanFollows(k, rest[0].value, v.answer, row.rawAmount);
    }
    FollowsCons(k, Begin, rest, Open, row.rawAmount);
  }

  lemma {:induction false} ShortPlanFollows(k: Kind, plan: seq<Action>, st: Stage, rawAmount: nat)
    requires plan == [] || (|plan| == 1 && Allowed(k, plan[0], st, rawAmount))
    ensures Follows(k, plan, st, rawAmount)
  {
  }

  lemma {:induction false} EvmPlanFollows(k: Kind, row: Row, v: View)
    requires k.family == Evm
    ensures Follows(k, EvmPlan(k, row, v), Open, row.rawAmount)
  {
    var plan := EvmPlan(k, row, v);
    ShortPlanFollows(k, [], Open, row.rawAmount);
    var missing := if v.nativeBalance < k.requiredGas then k.requiredGas - v.nativeBalance else 0;
    var stillMissing := if v.currentBalance < k.requiredGas then k.requiredGas - v.currentBalance else 0;
    TopUpPlanFollows(k, missing, v.gasAnswer, row.rawAmount);
    TopUpPlanFollows(k, stillMissing, v.gasAnswer, row.rawAmount);
    EvmBroadcastFollows(k, row, v);
    if |plan| <= 1 {
      ShortPlanFollows(k, plan, Open, row.rawAmount);
    } else if plan[0] == Funded || plan[0] == Block(OtherReason) {
      FollowsCons(k, plan[0], plan[1..], Open, row.rawAmount);
      assert plan == [plan[0]] + plan[1..];
    }
  }

  lemma {:induction false} SolanaPlanFollows(k: Kind, row: Row, v: View)
    requires k.family == Solana
    ensures Follows(k, SolanaPlan(k, row, v), Open, row.rawAmount)
  {
    var plan := SolanaPlan(k, row, v);
    if |plan| <= 1 {
      ShortPlanFollows(k, plan, Open, row.rawAmount);
    } else if v.nativeBalance < row.rawAmount + k.feeReserve {
      TopUpPlanFollows(k, row.rawAmount + k.feeReserve - v.nativeBalance, v.gasAnswer, row.rawAmount);
    } else {
      TransferPlanFollows(k, row.rawAmount, v.answer, row.rawAmount);
      FollowsCons(k, Begin, TransferPlan(k, row.rawAmount, v.answer), Open, row.rawAmount);
    }
  }

  /** What a Tron run does once its amount is settled. */
  lemma {:induction false} TronAmountPlanFollows(k: Kind, row: Row, v: View, amount: nat)
    requires k.family == Tron
    ensures Follows(k, TronAmountPlan(k, row, v, amount), Open, amount)
  {
    var plan := TronAmountPlan(k, row, v, amount);
    if |plan| <= 1 {
      ShortPlanFollows(k, plan, Open, amount);
    } else {
      var needed := if k.contract.Some? then k.feeReserve else amount + k.feeReserve;
      TransferPlanFollows(k, amount, v.answer, amount);
      FollowsCons(k, Begin, TransferPlan(k, amount, v.answer), Open, amount);
      TopUpPlanFollows(k, if v.nativeBalance < needed then needed - v.nativeBalance else 0, v.gasAnswer, amount);
    }
  }

  lemma {:induction false} TronPlanFollows(k: Kind, row: Row, v: View)
    requires k.family == Tron
    ensures Follows(k, TronPlan(k, row, v), Open, row.rawAmount)
  {
    var plan := TronPlan(k, row, v);
    var amount := if k.contract.Some? then Min(row.rawAmount, v.tokenBalance) else row.rawAmount;
    TronAmountPlanFollows(k, row, v, amount);
    if !v.configured || (row.status == Broadcasted && row.txHash.Some?) || (k.contract.Some? && v.tokenBalance == 0) {
      ShortPlanFollows(k, plan, Open, row.rawAmount);
    } else if amount < row.rawAmount {
      FollowsCons(k, Shrink(amount), TronAmountPlan(k, row, v, amount), Open, row.rawAmount);
    }
  }

  lemma {:induction false} PlanFollows(k: Kind, row: Row, v: View)
    ensures Follows(k, Plan(k, row, v), Open, row.rawAmount)
  {
    match k.family
    case Evm => EvmPlanFollows(k, row, v);
    case Solana => SolanaPlanFollows(k, row, v);
    case Tron => TronPlanFollows(k, row, v);
  }

  // ----- attempts and reference ids, on every family

  predicate InFlight(status: Status) { status in {Pending, FundingGas, Broadcasting, Broadcasted} }

  /** Attempts grow from send to send, so no reference id is used twice. */
  ghost predicate Numbered(sends: seq<Send>, attempts: nat) {
    && (forall i | 0 <= i < |sends| :: 1 <= sends[i].attempt <= attempts)
    && (forall i, j | 0 <= i < j < |sends| :: sends[i].attempt < sends[j].attempt)
  }

  ghost predicate Accounted(k: Kind, s: Sweep, st: Stage) {
    && Numbered(s.sends, s.row.attempts)
    && s.row.attempts <= k.maxAttempts
    && Follows(k, s.todo, st, s.row.rawAmount)
    && (st == GasArmed || st == TransferArmed ==>
        s.row.attempts > 0 && forall i | 0 <= i < |s.sends| :: s.sends[i].attempt < s.row.attempts)
    && (st == Open && s.todo != [] ==> s.row.attempts < k.maxAttempts)
    && (s.recalled ==> s.snapshot.None? && s.todo == [])
    && (s.snapshot.Some? ==>
          var r := s.snapshot.value;
          && s.todo == [] && InFlight(r.status) && r.attempts < k.maxAttempts
          && r.attempts == s.row.attempts && r.rawAmount == s.row.rawAmount)
  }

  lemma {:induction false} CarryingKeepsAccounts(k: Kind, s: Sweep, st: Stage)
    requires Accounted(k, s, st) && s.todo != []
    ensures Accounted(k, Carried(s), Next(s.todo[0], st))
    ensures Next(s.todo[0], st) == Open ==> Carried(s).row.attempts < k.maxAttempts
  {
  }

  lemma {:induction false} HandlingKeepsAccounts(k: Kind, s: Sweep, block: bool, st: Stage)
    requires Accounted(k, s, st) && (st == Open ==> s.row.attempts < k.maxAttempts) && s.snapshot.None? && !s.recalled
    ensures Accounted(k, Handled(s, block), st)
  {
    if block {
      OneFollows(k, Block(OtherReason), st, s.row.rawAmount);
    }
  }

  lemma {:induction false} WorkKeepsAccounts(k: Kind, s: Sweep, outcome: Outcome, block: bool, st: Stage)
    returns (st': Stage)
    requires Accounted(k, s, st) && s.todo != []
    ensures Accounted(k, Step(k, s, Work(outcome, block)), st')
    ensures st' == if outcome == Fails then st else Next(s.todo[0], st)
  {
    st' := if outcome == Fails then st else Next(s.todo[0], st);
    CarryingKeepsAccounts(k, s, st);
    match outcome
    case Done =>
    case Fails => HandlingKeepsAccounts(k, s, block, st);
    case Lost => HandlingKeepsAccounts(k, Carried(s), block, st');
  }

  lemma {:induction false} StartKeepsAccounts(k: Kind, s: Sweep, view: View, st: Stage)
    requires Accounted(k, s, st) && s.snapshot.Some?
    ensures Accounted(k, Step(k, s, Start(view)), Open)
  {
    PlanFollows(k, s.snapshot.value, view);
  }

  lemma {:induction false} StepKeepsAccounts(k: Kind, s: Sweep, e: Event, st: Stage) returns (st': Stage)
    requires Accounted(k, s, st)
    ensures Accounted(k, Step(k, s, e), st')
    ensures !e.Work? && !e.Start? ==> st' == st
  {
    st' := st;
    match e
    case Work(outcome, block) =>
      if s.todo != [] {
        st' := WorkKeepsAccounts(k, s, outcome, block, st);
      }
    case Start(view) =>
      if s.snapshot.Some? {
        StartKeepsAccounts(k, s, view, st);
        st' := Open;
      }
    case _ =>
  }

  lemma {:induction false} RunKeepsAccounts(k: Kind, s: Sweep, events: seq<Event>, st: Stage) returns (st': Stage)
    requires Accounted(k, s, st)
    ensures Accounted(k, Run(k, s, events), st')
    decreases |events|
  {
    st' := st;
    if events != [] {
      st' := StepKeepsAccounts(k, s, events[0], st);
      st' := RunKeepsAccounts(k, Step(k, s, events[0]), events[1..], st');
    }
  }

  lemma {:induction false} IncreasingIsShort(sends: seq<Send>, attempts: nat)
    requires Numbered(sends, attempts)
    ensures |sends| <= attempts
    decreases |sends|
  {
    if sends != [] {
      var n := |sends| - 1;
      IncreasingIsShort(sends[..n], sends[n].attempt - 1);
    }
  }

  /**
   * Over every run of a sweep of any family: custody calls are no more than attempts, attempts no more
   * than the configured maximum, and no two calls share a reference id.
   */
  lemma {:induction false} SendsAreCounted(k: Kind, rawAmount: nat, events: seq<Event>)
    ensures
      var s := Run(k, Fresh(rawAmount), events);
      && |s.sends| <= s.row.attempts <= k.maxAttempts
      && forall i, j | 0 <= i < j < |s.sends| ::
           (s.sends[i].kind, s.sends[i].attempt) != (s.sends[j].kind, s.sends[j].attempt)
  {
    var st := RunKeepsAccounts(k, Fresh(rawAmount), events, Open);
    var s := Run(k, Fresh(rawAmount), events);
    IncreasingIsShort(s.sends, s.row.attempts);
  }

  function Attempts(todo: seq<Action>): nat {
    if todo == [] then 0 else (if todo[0] == Begin || todo[0] == ReserveAttempt then 1 else 0) + Attempts(todo[1..])
  }

  function Sends(todo: seq<Action>): nat {
    if todo == [] then 0 else (if todo[0].SendGas? || todo[0].SendTransfer? then 1 else 0) + Sends(todo[1..])
  }

  lemma {:induction false} FollowsCounts(k: Kind, todo: seq<Action>, st: Stage, rawAmount: nat)
    requires Follows(k, todo, st, rawAmount)
    ensures Attempts(todo) <= if st == Open then 1 else 0
    ensures Sends(todo) <= if st == Open then Attempts(todo) else if st == GasArmed || st == TransferArmed then 1 else 0
    decreases |todo|
  {
    if todo != [] {
      FollowsCounts(k, todo[1..], Next(todo[0], st), NextRaw(todo[0], rawAmount));
    }
  }

  /** One run of processSweep, whatever it reads: at most one new attempt, and at most one send for it. */
  lemma {:induction false} OneAttemptPerRun(k: Kind, row: Row, v: View)
    ensures Sends(Plan(k, row, v)) <= Attempts(Plan(k, row, v)) <= 1
  {
    PlanFollows(k, row, v);
    FollowsCounts(k, Plan(k, row, v), Open, row.rawAmount);
  }

  // ----- at most one transfer, on EVM and Solana

  /** A row no plan sends a transfer from, and that no requeue returns to PENDING. */
  predicate Spent(k: Kind, row: Row) {
    && row.status != Pending && row.status != FundingGas && !Recallable(row)
    && !(k.family == Solana && row.status == Broadcasted && row.txHash.None?)
  }

  /** The worker is past the write of its attempt and has a transfer to hand over. */
  predicate Armed(todo: seq<Action>) {
    todo != [] && todo[0] != Begin && (todo[0].SendTransfer? || Armed(todo[1..]))
  }

  /** A transfer has been handed over or is about to be. */
  predicate Committed(s: Sweep) { Transfers(s.sends) > 0 || Armed(s.todo) }

  ghost predicate OneTransfer(k: Kind, s: Sweep, st: Stage) {
    && Accounted(k, s, st)
    && Once(k, s.row, s.sends, s.todo, st)
    && (Transfers(s.sends) == 1 ==> !s.recalled && (s.snapshot.Some? ==> Spent(k, s.snapshot.value)))
  }

  ghost predicate Once(k: Kind, row: Row, sends: seq<Send>, todo: seq<Action>, st: Stage) {
    && Transfers(sends) <= 1
    && (Armed(todo) ==> Transfers(sends) == 0 && Spent(k, row))
    && (Transfers(sends) == 1 ==> st == TransferSent && Spent(k, row) && SentAsRecorded(k, row, sends))
  }

  ghost predicate SentAsRecorded(k: Kind, row: Row, sends: seq<Send>) {
    forall i | 0 <= i < |sends| && sends[i].kind == Transfer :: ValueOk(k, sends[i].value, row.rawAmount)
  }

  lemma {:induction false} ArmedByBegin(k: Kind, todo: seq<Action>, st: Stage, rawAmount: nat)
    requires Follows(k, todo, st, rawAmount) && Armed(todo)
    ensures st == TransferArmed
    decreases |todo|
  {
    if !todo[0].SendTransfer? {
      ArmedByBegin(k, todo[1..], Next(todo[0], st), NextRaw(todo[0], rawAmount));
    }
  }

  lemma {:induction false} TransfersSnoc(sends: seq<Send>, x: Send)
    ensures Transfers(sends + [x]) == Transfers(sends) + if x.kind == Transfer then 1 else 0
  {
    assert (sends + [x])[..|sends|] == sends;
  }

  lemma {:induction false} NoTransfers(sends: seq<Send>)
    requires Transfers(sends) == 0
    ensures forall i | 0 <= i < |sends| :: sends[i].kind != Transfer
    decreases |sends|
  {
    if sends != [] {
      NoTransfers(sends[..|sends| - 1]);
    }
  }

  /**
   * What could open a sweep again once its transfer is committed: an EVM address found ineligible, or a
   * webhook that writes back a row it read when the sweep was still to be sent.
   */
  predicate Harmless(k: Kind, s: Sweep, e: Event) {
    && (e.Start? && k.family == Evm && !e.view.eligible ==> Transfers(s.sends) == 0)
    && (e.WebhookWrite? && e.i < |s.hooks| && Committed(s) ==> Spent(k, RowAfter(s.row, s.hooks[e.i])))
  }

  lemma {:induction false} SpentPlanFollows(k: Kind, row: Row, v: View)
    requires k.family != Tron && Spent(k, row) && InFlight(row.status) && (k.family == Evm ==> v.eligible)
    ensures Follows(k, Plan(k, row, v), TransferSent, row.rawAmount)
  {
    ShortPlanFollows(k, Plan(k, row, v), TransferSent, row.rawAmount);
  }

  lemma {:induction false} TransferKeepsOnce(k: Kind, row: Row, sends: seq<Send>, todo: seq<Action>, st: Stage)
    requires todo != [] && todo[0].SendTransfer? && Once(k, row, sends, todo, st) && Follows(k, todo, st, row.rawAmount)
    ensures Once(k, row, sends + [Send(Transfer, row.attempts, todo[0].value)], todo[1..], TransferSent)
  {
    TransfersSnoc(sends, Send(Transfer, row.attempts, todo[0].value));
    NoTransfers(sends);
    if Armed(todo[1..]) {
      ArmedByBegin(k, todo[1..], TransferSent, row.rawAmount);
    }
  }

  lemma {:induction false} OtherActionKeepsOnce(k: Kind, row: Row, sends: seq<Send>, todo: seq<Action>, st: Stage)
    requires todo != [] && !todo[0].SendTransfer? && k.family != Tron
    requires Once(k, row, sends, todo, st) && Follows(k, todo, st, row.rawAmount)
    ensures Once(k, Write(row, todo[0]), sends + Handed(row, todo[0]), todo[1..], Next(todo[0], st))
  {
    var a := todo[0];
    if a.SendGas? {
      TransfersSnoc(sends, Handed(row, a)[0]);
    } else {
      assert sends + Handed(row, a) == sends;
    }
    if Armed(todo[1..]) {
      ArmedByBegin(k, todo[1..], Next(a, st), NextRaw(a, row.rawAmount));
    }
  }

  lemma {:induction false} CarryingKeepsOnce(k: Kind, s: Sweep, st: Stage)
    requires k.family != Tron && s.todo != []
    requires Once(k, s.row, s.sends, s.todo, st) && Follows(k, s.todo, st, s.row.rawAmount)
    ensures Once(k, Carried(s).row, Carried(s).sends, Carried(s).todo, Next(s.todo[0], st))
  {
    var a, c := s.todo[0], Carried(s);
    assert c.row == Write(s.row, a) && c.sends == s.sends + Handed(s.row, a) && c.todo == s.todo[1..];
    if a.SendTransfer? {
      assert c.row == s.row && Handed(s.row, a) == [Send(Transfer, s.row.attempts, a.value)];
      TransferKeepsOnce(k, s.row, s.sends, s.todo, st);
    } else {
      OtherActionKeepsOnce(k, s.row, s.sends, s.todo, st);
    }
  }

  lemma {:induction false} HandlingDisarms(s: Sweep, block: bool)
    ensures !Armed(Handled(s, block).todo)
  {
    assert [Block(OtherReason)][1..] == [];
  }

  lemma {:induction false} HandlingKeepsOnce(k: Kind, s: Sweep, block: bool, st: Stage)
    requires Once(k, s.row, s.sends, s.todo, st)
    ensures Once(k, s.row, s.sends, Handled(s, block).todo, st)
  {
    HandlingDisarms(s, block);
  }

  lemma {:induction false} WorkKeepsOneTransfer(k: Kind, s: Sweep, outcome: Outcome, block: bool, st: Stage)
    returns (st': Stage)
    requires k.family != Tron && OneTransfer(k, s, st) && s.todo != []
    ensures OneTransfer(k, Step(k, s, Work(outcome, block)), st')
  {
    st' := WorkKeepsAccounts(k, s, outcome, block, st);
    assert s.snapshot.None? && !s.recalled;
    if outcome == Fails {
      HandlingKeepsOnce(k, s, block, st);
    } else {
      CarryingKeepsOnce(k, s, st);
      if outcome == Lost {
        HandlingKeepsOnce(k, Carried(s), block, st');
      }
    }
  }

  lemma {:induction false} StartKeepsOneTransfer(k: Kind, s: Sweep, view: View, st: Stage) returns (st': Stage)
    requires k.family != Tron && OneTransfer(k, s, st) && s.snapshot.Some? && Harmless(k, s, Start(view))
    ensures OneTransfer(k, Step(k, s, Start(view)), st')
  {
    StartKeepsAccounts(k, s, view, st);
    st' := Open;
    var plan := Plan(k, s.snapshot.value, view);
    if Transfers(s.sends) == 1 {
      SpentPlanFollows(k, s.snapshot.value, view);
      st' := TransferSent;
    }
    if Armed(plan) {
      ArmedByBegin(k, plan, st', s.row.rawAmount);
    }
  }

  lemma {:induction false} StepKeepsOneTransfer(k: Kind, s: Sweep, e: Event, st: Stage) returns (st': Stage)
    requires k.family != Tron && OneTransfer(k, s, st) && Harmless(k, s, e)
    ensures OneTransfer(k, Step(k, s, e), st')
  {
    st' := st;
    match e
    case Work(outcome, block) =>
      if s.todo != [] {
        st' := WorkKeepsOneTransfer(k, s, outcome, block, st);
      }
    case Start(view) =>
      if s.snapshot.Some? {
        st' := StartKeepsOneTransfer(k, s, view, st);
      }
    case _ =>
      st' := StepKeepsAccounts(k, s, e, st);
  }

  /** No event of the run opens the sweep again. */
  ghost predicate Steady(k: Kind, s: Sweep, events: seq<Event>)
    decreases |events|
  {
    events == [] || (Harmless(k, s, events[0]) && Steady(k, Step(k, s, events[0]), events[1..]))
  }

  lemma {:induction false} RunKeepsOneTransfer(k: Kind, s: Sweep, events: seq<Event>, st: Stage) returns (st': Stage)
    requires k.family != Tron && OneTransfer(k, s, st) && Steady(k, s, events)
    ensures OneTransfer(k, Run(k, s, events), st')
    decreases |events|
  {
    st' := st;
    if events != [] {
      st' := StepKeepsOneTransfer(k, s, events[0], st);
      st' := RunKeepsOneTransfer(k, Step(k, s, events[0]), events[1..], st');
    }
  }

  /**
   * An EVM or Solana sweep is handed to custody at most once over ticks, crashes, throwing sends, lost
   * writes, requeues and webhooks that read and write apart, if nothing opens it again; and what was
   * handed over is the amount the row records.
   */
  lemma {:induction false} AtMostOneTransfer(k: Kind, rawAmount: nat, events: seq<Event>)
    requires k.family != Tron && Steady(k, Fresh(rawAmount), events)
    ensures
      var s := Run(k, Fresh(rawAmount), events);
      && Transfers(s.sends) <= 1
      && SentAsRecorded(k, s.row, s.sends)
  {
    var st := RunKeepsOneTransfer(k, Fresh(rawAmount), events, Open);
    var s := Run(k, Fresh(rawAmount), events);
    if Transfers(s.sends) == 0 {
      NoTransfers(s.sends);
    }
  }

  // ----- conditions on single events

  /** All starts find the address as `eligible` says. */
  predicate FixedEligibility(events: seq<Event>, eligible: bool) {
    forall i | 0 <= i < |events| :: (events[i].Start? ==> events[i].view.eligible == eligible)
  }

  /** A webhook that does not write back the status it read. */
  predicate Decisive(h: Hook) { h.failed || (!h.gas && h.hash.Some?) }

  /**
   * A webhook may write if it is decisive or no attempt has been counted since it read the row; on Solana
   * a gas webhook must also have seen the transaction hash as it is.
   */
  predicate UpToDate(k: Kind, row: Row, h: Hook) {
    || Decisive(h)
    || (h.seen.attempts == row.attempts && (k.family == Solana && h.gas ==> h.seen.txHash == row.txHash))
  }

  ghost predicate WritesUpToDate(k: Kind, s: Sweep, events: seq<Event>)
    decreases |events|
  {
    events == [] ||
    (var e := events[0];
     && (e.WebhookWrite? && e.i < |s.hooks| ==> UpToDate(k, s.row, s.hooks[e.i]))
     && WritesUpToDate(k, Step(k, s, e), events[1..]))
  }

  /** An open webhook has seen no later attempt, and since the transfer of its attempt only a spent row. */
  ghost predicate HookOk(k: Kind, s: Sweep, h: Hook) {
    && h.seen.attempts <= s.row.attempts
    && (Committed(s) && h.seen.attempts == s.row.attempts ==> Spent(k, h.seen))
  }

  ghost predicate HooksOk(k: Kind, s: Sweep) {
    forall i | 0 <= i < |s.hooks| :: HookOk(k, s, s.hooks[i])
  }

  lemma {:induction false} HooksStay(k: Kind, s: Sweep, s': Sweep)
    requires HooksOk(k, s) && s.row.attempts <= s'.row.attempts
    requires Committed(s') && s'.row.attempts == s.row.attempts ==> Committed(s)
    requires forall h | h in s'.hooks :: h in s.hooks
    ensures HooksOk(k, s')
  {
    forall i | 0 <= i < |s'.hooks| ensures HookOk(k, s', s'.hooks[i]) {
      assert s'.hooks[i] in s.hooks;
      var j :| 0 <= j < |s.hooks| && s.hooks[j] == s'.hooks[i];
      assert HookOk(k, s, s.hooks[j]);
    }
  }

  /** Doing an action commits the worker to no transfer but at Begin, which counts an attempt. */
  lemma {:induction false} CarryingCommits(s: Sweep)
    requires s.todo != []
    ensures Carried(s).row.attempts == s.row.attempts +
            if s.todo[0] == Begin || s.todo[0] == ReserveAttempt then 1 else 0
    ensures s.todo[0] != Begin && Committed(Carried(s)) ==> Committed(s)
  {
    if Handed(s.row, s.todo[0]) != [] {
      TransfersSnoc(s.sends, Handed(s.row, s.todo[0])[0]);
    } else {
      assert s.sends + [] == s.sends;
    }
  }

  lemma {:induction false} WorkKeepsHooks(k: Kind, s: Sweep, outcome: Outcome, block: bool)
    requires HooksOk(k, s) && s.todo != []
    ensures HooksOk(k, Step(k, s, Work(outcome, block)))
  {
    CarryingCommits(s);
    HandlingDisarms(s, block);
    HandlingDisarms(Carried(s), block);
    HooksStay(k, s, Step(k, s, Work(outcome, block)));
  }

  lemma {:induction false} ReadKeepsHooks(k: Kind, s: Sweep, e: Event, st: Stage)
    requires HooksOk(k, s) && OneTransfer(k, s, st) && e.WebhookRead?
    ensures HooksOk(k, Step(k, s, e))
  {
    var s' := Step(k, s, e);
    forall i | 0 <= i < |s'.hooks| ensures HookOk(k, s', s'.hooks[i]) {
      if i < |s.hooks| {
        assert HookOk(k, s, s.hooks[i]);
      }
    }
  }

  lemma {:induction false} StartKeepsHooks(k: Kind, s: Sweep, view: View)
    requires HooksOk(k, s) && s.snapshot.Some?
    ensures HooksOk(k, Step(k, s, Start(view)))
  {
    var r := s.snapshot.value;
    PlanFollows(k, r, view);
    if Armed(Plan(k, r, view)) {
      ArmedByBegin(k, Plan(k, r, view), Open, r.rawAmount);
    }
    HooksStay(k, s, Step(k, s, Start(view)));
  }

  lemma {:induction false} StepKeepsHooks(k: Kind, s: Sweep, e: Event, st: Stage)
    requires HooksOk(k, s) && OneTransfer(k, s, st)
    ensures HooksOk(k, Step(k, s, e))
  {
    match e
    case Work(outcome, block) =>
      if s.todo != [] {
        WorkKeepsHooks(k, s, outcome, block);
      }
    case Start(view) =>
      if s.snapshot.Some? {
        StartKeepsHooks(k, s, view);
      }
    case WebhookRead(_, _, _, _) => ReadKeepsHooks(k, s, e, st);
    case _ => HooksStay(k, s, Step(k, s, e));
  }

  lemma {:induction false} UpToDateIsHarmless(k: Kind, s: Sweep, i: nat)
    requires HooksOk(k, s) && i < |s.hooks| && UpToDate(k, s.row, s.hooks[i])
    ensures Harmless(k, s, WebhookWrite(i))
  {
    assert HookOk(k, s, s.hooks[i]);
  }

  lemma {:induction false} UpToDateIsSteady(k: Kind, s: Sweep, events: seq<Event>, st: Stage)
    requires k.family != Tron && OneTransfer(k, s, st) && HooksOk(k, s) && WritesUpToDate(k, s, events)
    requires k.family == Evm ==> FixedEligibility(events, true)
    ensures Steady(k, s, events)
    decreases |events|
  {
    if events != [] {
      var e := events[0];
      if e.WebhookWrite? && e.i < |s.hooks| {
        UpToDateIsHarmless(k, s, e.i);
      }
      var st' := StepKeepsOneTransfer(k, s, e, st);
      StepKeepsHooks(k, s, e, st);
      UpToDateIsSteady(k, Step(k, s, e), events[1..], st');
    }
  }

  lemma {:induction false} BlocksAreUnarmed(todo: seq<Action>)
    requires forall i | 0 <= i < |todo| :: todo[i].Block?
    ensures !Armed(todo)
    decreases |todo|
  {
    if todo != [] {
      BlocksAreUnarmed(todo[1..]);
    }
  }

  /** An ineligible address: the plan, if there is one, only blocks. */
  lemma {:induction false} IneligibleOnlyBlocks(k: Kind, s: Sweep, e: Event)
    requires k.family == Evm && (e.Start? ==> !e.view.eligible)
    requires forall i | 0 <= i < |s.todo| :: s.todo[i].Block?
    ensures Step(k, s, e).sends == s.sends && forall i | 0 <= i < |Step(k, s, e).todo| :: Step(k, s, e).todo[i].Block?
  {
  }

  lemma {:induction false} IneligibleNeverSends(k: Kind, s: Sweep, events: seq<Event>)
    requires k.family == Evm && FixedEligibility(events, false)
    requires Transfers(s.sends) == 0 && forall i | 0 <= i < |s.todo| :: s.todo[i].Block?
    ensures Steady(k, s, events)
    decreases |events|
  {
    if events != [] {
      var s' := Step(k, s, events[0]);
      BlocksAreUnarmed(s.todo);
      IneligibleOnlyBlocks(k, s, events[0]);
      IneligibleNeverSends(k, s', events[1..]);
    }
  }

  /** Two plain conditions are enough: eligibility does not change, and webhooks write what is up to date. */
  lemma {:induction false} FixedEligibilitySendsOnce(k: Kind, rawAmount: nat, events: seq<Event>, eligible: bool)
    requires k.family != Tron && (k.family == Evm ==> FixedEligibility(events, eligible))
    requires WritesUpToDate(k, Fresh(rawAmount), events)
    ensures Transfers(Run(k, Fresh(rawAmount), events).sends) <= 1
  {
    if k.family == Evm && !eligible {
      IneligibleNeverSends(k, Fresh(rawAmount), events);
    } else {
      UpToDateIsSteady(k, Fresh(rawAmount), events, Open);
    }
    AtMostOneTransfer(k, rawAmount, events);
  }

  // ----- runs of whole plans

  lemma {:induction false} RunOne(k: Kind, s: Sweep, f: seq<Event>)
    requires f != []
    ensures Run(k, s, f) == Run(k, Step(k, s, f[0]), f[1..])
  {
  }

  lemma {:induction false} RunConcat(k: Kind, s: Sweep, a: seq<Event>, b: seq<Event>)
    ensures Run(k, s, a + b) == Run(k, Run(k, s, a), b)
    decreases |a|
  {
    if a == [] {
      assert a + b == b;
    } else {
      assert (a + b)[1..] == a[1..] + b;
      RunConcat(k, Step(k, s, a[0]), a[1..], b);
    }
  }

  /** A row and its custody calls after a list of actions. */
  function Carry(row: Row, sends: seq<Send>, actions: seq<Action>): (Row, seq<Send>)
    decreases |actions|
  {
    if actions == [] then (row, sends)
    else Carry(Write(row, actions[0]), sends + Handed(row, actions[0]), actions[1..])
  }

  lemma {:induction false} CarryConcat(row: Row, sends: seq<Send>, a: seq<Action>, b: seq<Action>)
    ensures Carry(row, sends, a + b) == var (r, s) := Carry(row, sends, a); Carry(r, s, b)
    decreases |a|
  {
    if a == [] {
      assert a + b == b;
    } else {
      assert (a + b)[1..] == a[1..] + b;
      CarryConcat(Write(row, a[0]), sends + Handed(row, a[0]), a[1..], b);
    }
  }

  lemma {:induction false} CarryCons(row: Row, sends: seq<Send>, a: Action, rest: seq<Action>)
    ensures Carry(row, sends, [a] + rest) == Carry(Write(row, a), sends + Handed(row, a), rest)
  {
    assert ([a] + rest)[1..] == rest;
  }

  function Works(n: nat): seq<Event> {
    if n == 0 then [] else [Work(Done, false)] + Works(n - 1)
  }

  /** Undisturbed, the machine carries its plan out. */
  lemma {:induction false} WorksCarry(k: Kind, row: Row, sends: seq<Send>, todo: seq<Action>, hooks: seq<Hook>)
    ensures Run(k, Sweep(row, None, todo, sends, hooks, false), Works(|todo|)) ==
            var (r, s) := Carry(row, sends, todo); Sweep(r, None, [], s, hooks, false)
    decreases |todo|
  {
    if todo != [] {
      var s := Sweep(row, None, todo, sends, hooks, false);
      assert Works(|todo|)[1..] == Works(|todo| - 1);
      RunOne(k, s, Works(|todo|));
      WorksCarry(k, Write(row, todo[0]), sends + Handed(row, todo[0]), todo[1..], hooks);
    }
  }

  // ----- other consequences

  /** A deep receipt that shows a transfer of the given value from the swept wallet to the treasury. */
  predicate Shows(k: Kind, v: View, value: nat) {
    v.receipt.Deep? && Moved(k.contract, k.address, k.treasury, value) in v.receipt.moves
  }

  lemma {:induction false} ReceiptConfirms(k: Kind, s: Sweep, st: Stage, v: View, i: nat)
    requires k.family != Tron && (k.family == Evm ==> v.eligible) && v.configured
    requires k.family == Solana ==> k.contract.None?
    requires OneTransfer(k, s, st) && s.row.status == Broadcasted && i < |s.sends| && s.sends[i].kind == Transfer
    requires s.sends[i].value > 0 && Shows(k, v, s.sends[i].value)
    ensures Plan(k, s.row, v) == if s.row.txHash.Some? then [Confirm] else []
  {
    if Transfers(s.sends) == 0 {
      NoTransfers(s.sends);
    }
    var moved := Moved(k.contract, k.address, k.treasury, s.sends[i].value);
    var j :| 0 <= j < |v.receipt.moves| && v.receipt.moves[j] == moved;
    assert k.family == Evm && k.contract.None? ==> v.receipt.moves[j].value > 0;
    assert !(k.family == Evm && k.contract.None?) ==> IsSweepTransfer(k, s.row, v.receipt.moves[j]);
  }

  /**
   * In every run: a tick that reads a broadcast sweep with its hash confirms it from a receipt that shows
   * what was handed to custody, and without the hash leaves it.
   */
  lemma {:induction false} FaithfulReceiptConfirms(k: Kind, rawAmount: nat, events: seq<Event>, v: View, i: nat)
    requires k.family != Tron && Steady(k, Fresh(rawAmount), events)
    requires (k.family == Evm ==> v.eligible) && v.configured && (k.family == Solana ==> k.contract.None?)
    requires var s := Run(k, Fresh(rawAmount), events);
             && s.row.status == Broadcasted && i < |s.sends| && s.sends[i].kind == Transfer
             && s.sends[i].value > 0 && Shows(k, v, s.sends[i].value)
    ensures var s := Run(k, Fresh(rawAmount), events);
            Plan(k, s.row, v) == if s.row.txHash.Some? then [Confirm] else []
  {
    var st := RunKeepsOneTransfer(k, Fresh(rawAmount), events, Open);
    ReceiptConfirms(k, Run(k, Fresh(rawAmount), events), st, v, i);
  }

  lemma {:induction false} AccountedNeverGrows(k: Kind, s: Sweep, events: seq<Event>, st: Stage)
    requires Accounted(k, s, st)
    ensures Run(k, s, events).row.rawAmount <= s.row.rawAmount
    decreases |events|
  {
    if events != [] {
      var st' := StepKeepsAccounts(k, s, events[0], st);
      AccountedNeverGrows(k, Step(k, s, events[0]), events[1..], st');
    }
  }

  /** In every run, of every family, the recorded amount never grows, from any point of it on. */
  lemma {:induction false} AmountNeverGrows(k: Kind, rawAmount: nat, events: seq<Event>, more: seq<Event>)
    ensures var s, s' := Run(k, Fresh(rawAmount), events), Run(k, Fresh(rawAmount), events + more);
            s'.row.rawAmount <= s.row.rawAmount <= rawAmount
  {
    AccountedNeverGrows(k, Fresh(rawAmount), events, Open);
    var st := RunKeepsAccounts(k, Fresh(rawAmount), events, Open);
    RunConcat(k, Fresh(rawAmount), events, more);
    AccountedNeverGrows(k, Run(k, Fresh(rawAmount), events), more, st);
  }

  /** A native EVM send stays within the recorded amount and leaves the gas reserve in the wallet. */
  lemma {:induction false} NativeSendLeavesTheReserve(k: Kind, row: Row, v: View, i: nat)
    requires k.family == Evm && k.contract.None? && i < |Plan(k, row, v)| && Plan(k, row, v)[i].SendTransfer?
    ensures 0 < Plan(k, row, v)[i].value <= row.rawAmount
    ensures Plan(k, row, v)[i].value + k.gasReserve <= v.nativeBalance
  {
  }

  /** A token sweep sends what is recorded or, if less is there, all that is there, and records it. */
  lemma {:induction false} TokenSendsTheBalance(k: Kind, row: Row, v: View, i: nat)
    requires k.family == Evm && k.contract.Some? && i < |Plan(k, row, v)| && Plan(k, row, v)[i].SendTransfer?
    ensures Plan(k, row, v)[i].value == Min(row.rawAmount, v.tokenBalance)
    ensures Plan(k, row, v)[i].value < row.rawAmount ==>
              i > 0 && Plan(k, row, v)[i - 1] == Shrink(Plan(k, row, v)[i].value)
  {
  }
}
