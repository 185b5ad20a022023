/**
 * The deposits recorded for one personal address and one ERC20 contract.  Transfers arrive, are
 * detected from logs any number of times, are swept away again, and a reconcile compares the balance
 * with what has been recorded.  Both checks read the current balance only.
 */
module TrackedDeposits {
  /** The idempotency key: a log of the chain, or the digest of a balance difference. */
  datatype Key = FromLog(index: nat) | FromBalance(delta: nat)

  /** `counted` stands for the statuses PENDING_CONFIRMATION, DETECTED and CREDITED. */
  datatype Row = Row(key: Key, amount: nat, counted: bool)

  datatype Address = Address(received: seq<nat>, sent: nat, rows: seq<Row>)

  const FRESH := Address([], 0, [])

  /** `relink`: an intent is attached to an existing deposit, which sets its status again. */
  datatype Step =
    | Receive(amount: nat)
    | Sweep(amount: nat)
    | Detect(log: nat, internal: bool, relink: bool)
    | Reconcile
    | Uncount(row: nat)

  function Total(amounts: seq<nat>): nat {
    if amounts == [] then 0 else Total(amounts[..|amounts| - 1]) + amounts[|amounts| - 1]
  }

  function SumTrackedRawDeposits(rows: seq<Row>): nat {
    if rows == [] then 0
    else
      var last := rows[|rows| - 1];
      SumTrackedRawDeposits(rows[..|rows| - 1]) + if last.counted then last.amount else 0
  }

  function Balance(s: Address): int { Total(s.received) - s.sent }

  function Tracked(s: Address): nat { SumTrackedRawDeposits(s.rows) }

  predicate ShouldSkipDetection(tracked: nat, incoming: nat, onChain: int) {
    if tracked <= 0 then false else if tracked >= onChain then true else tracked + incoming > onChain
  }

  predicate HasKey(rows: seq<Row>, key: Key) {
    exists i :: 0 <= i < |rows| && rows[i].key == key
  }

  function Relinked(rows: seq<Row>, key: Key): (r: seq<Row>) {
    seq(|rows|, i requires 0 <= i < |rows| => if rows[i].key == key then rows[i].(counted := true) else rows[i])
  }

  /** One record for a key: the first write makes it, a later one can only change its status. */
  function RecordDetectedDeposit(rows: seq<Row>, key: Key, amount: nat, relink: bool): seq<Row> {
    if !HasKey(rows, key) then rows + [Row(key, amount, true)]
    else if relink then Relinked(rows, key)
    else rows
  }

  function DetectRows(rows: seq<Row>, log: nat, amount: nat, onChain: int, internal: bool, relink: bool): seq<Row> {
    if ShouldSkipDetection(SumTrackedRawDeposits(rows), amount, onChain) || internal then rows
    else RecordDetectedDeposit(rows, FromLog(log), amount, relink)
  }

  function ReconcileRows(rows: seq<Row>, onChain: int): seq<Row> {
    var tracked := SumTrackedRawDeposits(rows);
    if onChain <= tracked then rows
    else RecordDetectedDeposit(rows, FromBalance(onChain - tracked), onChain - tracked, false)
  }

  /** A step the chain does not allow changes nothing. */
  function Apply(s: Address, step: Step): Address {
    match step
    case Receive(amount) => s.(received := s.received + [amount])
    case Sweep(amount) => if amount <= Balance(s) then s.(sent := s.sent + amount) else s
    case Detect(log, internal, relink) =>
      if log < |s.received| then s.(rows := DetectRows(s.rows, log, s.received[log], Balance(s), internal, relink))
      else s
    case Reconcile => s.(rows := ReconcileRows(s.rows, Balance(s)))
    case Uncount(row) => if row < |s.rows| then s.(rows := s.rows[row := s.rows[row].(counted := false)]) else s
  }

  function Run(steps: seq<Step>): Address {
    if steps == [] then FRESH else Apply(Run(steps[..|steps| - 1]), steps[|steps| - 1])
  }

  // ----- sums

  lemma {:induction false} TotalSnoc(amounts: seq<nat>, x: nat)
    ensures Total(amounts + [x]) == Total(amounts) + x
  {
    assert (amounts + [x])[..|amounts|] == amounts;
  }

  lemma {:induction false} TrackedSnoc(rows: seq<Row>, row: Row)
    ensures SumTrackedRawDeposits(rows + [row]) == SumTrackedRawDeposits(rows) + if row.counted then row.amount else 0
  {
    assert (rows + [row])[..|rows|] == rows;
  }

  /** Changing the status of one row changes the sum by its amount. */
  lemma {:induction false} TrackedUpdate(rows: seq<Row>, i: nat, counted: bool)
    requires i < |rows|
    ensures SumTrackedRawDeposits(rows[i := rows[i].(counted := counted)]) ==
            SumTrackedRawDeposits(rows) - (if rows[i].counted then rows[i].amount else 0) +
              (if counted then rows[i].amount else 0)
    decreases |rows|
  {
    var n := |rows| - 1;
    var changed := rows[i := rows[i].(counted := counted)];
    if i < n {
      TrackedUpdate(rows[..n], i, counted);
      assert changed[..n] == rows[..n][i := rows[i].(counted := counted)];
    } else {
      assert changed[..n] == rows[..n];
    }
  }

  // ----- what every run keeps

  ghost predicate RowsOk(s: Address) {
    && (forall i, j | 0 <= i < j < |s.rows| :: s.rows[i].key != s.rows[j].key)
    && (forall i | 0 <= i < |s.rows| && s.rows[i].key.FromLog? ::
          s.rows[i].key.index < |s.received| && s.rows[i].amount == s.received[s.rows[i].key.index])
  }

  /** `peak` is at least every transfer, the balance, and everything recorded. */
  ghost predicate Inv(s: Address, peak: int) {
    && RowsOk(s)
    && 0 <= Balance(s) <= peak
    && (forall i | 0 <= i < |s.received| :: s.received[i] <= peak)
    && Tracked(s) <= peak
  }

  lemma {:induction false} RecordKeeps(s: Address, key: Key, amount: nat, relink: bool, peak: int)
    requires Inv(s, peak) && Tracked(s) + amount <= peak
    requires key.FromLog? ==> key.index < |s.received| && amount == s.received[key.index]
    requires relink ==> key.FromLog?
    ensures Inv(s.(rows := RecordDetectedDeposit(s.rows, key, amount, relink)), peak)
  {
    if !HasKey(s.rows, key) {
      TrackedSnoc(s.rows, Row(key, amount, true));
    } else if relink {
      var i :| 0 <= i < |s.rows| && s.rows[i].key == key;
      assert Relinked(s.rows, key) == s.rows[i := s.rows[i].(counted := true)];
      TrackedUpdate(s.rows, i, true);
    }
  }

  function Higher(a: int, b: int): int { if b > a then b else a }

  lemma {:induction false} ReceiveKeeps(s: Address, amount: nat, peak: int)
    requires Inv(s, peak)
    ensures var next := s.(received := s.received + [amount]);
            Balance(next) == Balance(s) + amount && Inv(next, Higher(peak, Balance(next)))
  {
    TotalSnoc(s.received, amount);
  }

  lemma {:induction false} DetectKeeps(s: Address, log: nat, internal: bool, relink: bool, peak: int)
    requires Inv(s, peak) && log < |s.received|
    ensures Inv(s.(rows := DetectRows(s.rows, log, s.received[log], Balance(s), internal, relink)), peak)
  {
    if !internal && !ShouldSkipDetection(Tracked(s), s.received[log], Balance(s)) {
      RecordKeeps(s, FromLog(log), s.received[log], relink, peak);
    }
  }

  lemma {:induction false} ReconcileKeeps(s: Address, peak: int)
    requires Inv(s, peak)
    ensures Inv(s.(rows := ReconcileRows(s.rows, Balance(s))), peak)
  {
    var missing := Balance(s) - Tracked(s);
    if missing > 0 {
      RecordKeeps(s, FromBalance(missing), missing, false, peak);
      assert ReconcileRows(s.rows, Balance(s)) == RecordDetectedDeposit(s.rows, FromBalance(missing), missing, false);
    } else {
      assert s.(rows := ReconcileRows(s.rows, Balance(s))) == s;
    }
  }

  lemma {:induction false} ApplyKeeps(s: Address, step: Step, peak: int)
    requires Inv(s, peak)
    ensures Inv(Apply(s, step), Higher(peak, Balance(Apply(s, step))))
  {
    match step
    case Receive(amount) => ReceiveKeeps(s, amount, peak);
    case Sweep(amount) =>
    case Detect(log, internal, relink) =>
      if log < |s.received| {
        DetectKeeps(s, log, internal, relink, peak);
      }
    case Reconcile => ReconcileKeeps(s, peak);
    case Uncount(row) =>
      if row < |s.rows| {
        TrackedUpdate(s.rows, row, false);
      }
  }

  /** The highest balance the address has had. */
  function Peak(steps: seq<Step>): int {
    if steps == [] then 0
    else Higher(Peak(steps[..|steps| - 1]), Balance(Run(steps)))
  }

  lemma {:induction false} RunKeeps(steps: seq<Step>)
    ensures Inv(Run(steps), Peak(steps))
    decreases |steps|
  {
    if steps != [] {
      var before, last := steps[..|steps| - 1], steps[|steps| - 1];
      assert Run(steps) == Apply(Run(before), last) && Peak(steps) == Higher(Peak(before), Balance(Run(steps)));
      RunKeeps(before);
      ApplyKeeps(Run(before), last, Peak(before));
    }
  }

  lemma {:induction false} PeakIsAttained(steps: seq<Step>) returns (n: nat)
    ensures n <= |steps| && Balance(Run(steps[..n])) == Peak(steps)
    decreases |steps|
  {
    if steps == [] || Balance(Run(steps)) == Peak(steps) {
      n := |steps|;
      assert steps[..n] == steps;
    } else {
      n := PeakIsAttained(steps[..|steps| - 1]);
      assert steps[..|steps| - 1][..n] == steps[..n];
    }
  }

  lemma {:induction false} PeakIsReceived(steps: seq<Step>)
    ensures Peak(steps) <= Total(Run(steps).received)
    ensures Run(steps).sent >= 0
    decreases |steps|
  {
    if steps != [] {
      var before, step := steps[..|steps| - 1], steps[|steps| - 1];
      PeakIsReceived(before);
      if step.Receive? {
        TotalSnoc(Run(before).received, step.amount);
      }
    }
  }

  /**
   * For any order of transfers, detections, repeated detections, sweeps and reconciles, what is
   * recorded stays within what was received, and even within a balance the address once had.
   */
  lemma {:induction false} NothingIsInvented(steps: seq<Step>)
    ensures Tracked(Run(steps)) <= Total(Run(steps).received)
    ensures exists n :: 0 <= n <= |steps| && Tracked(Run(steps)) <= Balance(Run(steps[..n]))
  {
    RunKeeps(steps);
    PeakIsReceived(steps);
    var n := PeakIsAttained(steps);
    assert Tracked(Run(steps)) <= Balance(Run(steps[..n]));
  }

  // ----- what is missed

  /** A transfer is detected for the first time right after it arrives. */
  function ArriveAndDetect(s: Address, amount: nat): Address {
    Apply(Apply(s, Receive(amount)), Detect(|s.received|, false, false))
  }

  predicate Uncounted(rows: seq<Row>, key: Key) {
    exists i :: 0 <= i < |rows| && rows[i].key == key && !rows[i].counted
  }

  /** The balance has room for the transfer beside what is tracked. */
  predicate HasRoom(tracked: nat, amount: nat, onChain: int) {
    tracked == 0 || (tracked < onChain && tracked + amount <= onChain)
  }

  /** Linking a deposit anew counts it, with the amount it was recorded with. */
  lemma {:induction false} RelinkingCounts(rows: seq<Row>, key: Key, i: nat)
    requires i < |rows| && rows[i].key == key && forall j | 0 <= j < |rows| && j != i :: rows[j].key != key
    ensures HasKey(Relinked(rows, key), key)
    ensures SumTrackedRawDeposits(Relinked(rows, key)) ==
            SumTrackedRawDeposits(rows) + if Uncounted(rows, key) then rows[i].amount else 0
  {
    assert Relinked(rows, key) == rows[i := rows[i].(counted := true)];
    assert Relinked(rows, key)[i].key == key;
    TrackedUpdate(rows, i, true);
    assert Uncounted(rows, key) <==> !rows[i].counted;
  }

  /**
   * Detecting a transfer, for the first time or again: it is recorded exactly if it does not come from the exchange
   * itself and has room, and counts once, or again when a deposit that did not count is linked anew.
   */
  lemma {:induction false} DetectionIsExact(steps: seq<Step>, log: nat, internal: bool, relink: bool)
    requires log < |Run(steps).received|
    ensures
      var s, s' := Run(steps), Apply(Run(steps), Detect(log, internal, relink));
      var amount, key := s.received[log], FromLog(log);
      var taken := !internal && HasRoom(Tracked(s), amount, Balance(s));
      && (HasKey(s'.rows, key) <==> HasKey(s.rows, key) || taken)
      && Tracked(s') == Tracked(s) +
                        if taken && (!HasKey(s.rows, key) || (relink && Uncounted(s.rows, key))) then amount else 0
  {
    var s, key := Run(steps), FromLog(log);
    var amount := s.received[log];
    RunKeeps(steps);
    assert RowsOk(s);
    if internal || ShouldSkipDetection(Tracked(s), amount, Balance(s)) {
      assert DetectRows(s.rows, log, amount, Balance(s), internal, relink) == s.rows;
    } else if !HasKey(s.rows, key) {
      TrackedSnoc(s.rows, Row(key, amount, true));
      assert (s.rows + [Row(key, amount, true)])[|s.rows|].key == key;
    } else if relink {
      var i :| 0 <= i < |s.rows| && s.rows[i].key == key;
      RelinkingCounts(s.rows, key, i);
    }
  }

  /** A new transfer is recorded exactly when nothing is tracked or the balance before it covers what is. */
  lemma {:induction false} NewTransferIsRecorded(steps: seq<Step>, amount: nat)
    requires amount > 0
    ensures
      var s := Run(steps);
      HasKey(ArriveAndDetect(s, amount).rows, FromLog(|s.received|)) <==> Tracked(s) == 0 || Tracked(s) <= Balance(s)
  {
    var s := Run(steps);
    RunKeeps(steps);
    TotalSnoc(s.received, amount);
    assert !HasKey(s.rows, FromLog(|s.received|));
    var rows := s.rows + [Row(FromLog(|s.received|), amount, true)];
    assert rows[|s.rows|].key == FromLog(|s.received|);
  }

  /** So once everything received is tracked, one sweep stops the detection of later transfers. */
  lemma {:induction false} SweepingStopsDetection(steps: seq<Step>, amount: nat)
    requires amount > 0 && Tracked(Run(steps)) == Total(Run(steps).received) > 0
    ensures
      var s := Run(steps);
      HasKey(ArriveAndDetect(s, amount).rows, FromLog(|s.received|)) <==> s.sent == 0
  {
    NewTransferIsRecorded(steps, amount);
    PeakIsReceived(steps);
  }

  /** A reconcile brings the records up to the balance unless it has seen the same difference before. */
  lemma {:induction false} ReconcileCatchesUp(s: Address)
    ensures Tracked(Apply(s, Reconcile)) >= Balance(s) <==>
            Balance(s) <= Tracked(s) || !HasKey(s.rows, FromBalance(Balance(s) - Tracked(s)))
  {
    if Balance(s) > Tracked(s) {
      TrackedSnoc(s.rows, Row(FromBalance(Balance(s) - Tracked(s)), Balance(s) - Tracked(s), true));
    }
  }

  /** An amount received and reconciled, swept away, and then twice the amount received. */
  function Repeated(a: nat): seq<Step> { [Receive(a)] + [Reconcile] + [Sweep(a)] + [Receive(2 * a)] }

  lemma {:induction false} RunSnoc(steps: seq<Step>, step: Step)
    ensures Run(steps + [step]) == Apply(Run(steps), step)
  {
    assert (steps + [step])[..|steps|] == steps;
  }

  /** An amount arrives, is recorded by a reconcile and swept away. */
  lemma {:induction false} ReceivedAndSwept(a: nat)
    requires a > 0
    ensures Run([Receive(a)] + [Reconcile] + [Sweep(a)]) == Address([a], a, [Row(FromBalance(a), a, true)])
  {
    var row := Row(FromBalance(a), a, true);
    RunSnoc([], Receive(a));
    assert [] + [Receive(a)] == [Receive(a)] && [] + [a] == [a] && [] + [row] == [row];
    TotalSnoc([], a);
    assert Run([Receive(a)]) == Address([a], 0, []);
    RunSnoc([Receive(a)], Reconcile);
    assert ReconcileRows([], a) == [row];
    RunSnoc([Receive(a)] + [Reconcile], Sweep(a));
  }

  /** Such a run, for any amount, ends in a difference that has been recorded before: the reconcile misses it. */
  lemma {:induction false} RepeatedDifferenceIsMissed(a: nat)
    requires a > 0
    ensures var s := Run(Repeated(a));
            Balance(s) == 2 * a && Tracked(s) == a && Apply(s, Reconcile) == s
  {
    var row := Row(FromBalance(a), a, true);
    ReceivedAndSwept(a);
    RunSnoc([Receive(a)] + [Reconcile] + [Sweep(a)], Receive(2 * a));
    TotalSnoc([], a);
    TotalSnoc([a], 2 * a);
    assert [] + [a] == [a] && [] + [row] == [row];
    TrackedSnoc([], row);
    assert [row][0].key == FromBalance(a);
  }

  class DepositTracker {
    var rows: seq<Row>

    constructor ()
      ensures rows == []
    {
      rows := [];
    }

    /** A decoded transfer log to the personal address, with the balance read for it. */
    method DetectTransfer(log: nat, amount: nat, onChain: int, internal: bool, relink: bool)
      modifies this
      ensures rows == DetectRows(old(rows), log, amount, onChain, internal, relink)
    {
      var tracked := SumTracked();
      if tracked > 0 {
        if tracked >= onChain {
          return;
        }
        if tracked + amount > onChain {
          return;
        }
      }
      if internal {
        return;
      }
      Record(FromLog(log), amount, relink);
    }

    method ReconcileBalance(onChain: int) returns (reconciled: bool)
      modifies this
      ensures rows == ReconcileRows(old(rows), onChain)
      ensures reconciled <==> onChain > SumTrackedRawDeposits(old(rows))
    {
      var tracked := SumTracked();
      if onChain <= tracked {
        return false;
      }
      Record(FromBalance(onChain - tracked), onChain - tracked, false);
      return true;
    }

    method SumTracked() returns (sum: nat)
      ensures sum == SumTrackedRawDeposits(rows)
    {
      sum := 0;
      for i := 0 to |rows|
        invariant sum == SumTrackedRawDeposits(rows[..i])
      {
        TrackedSnoc(rows[..i], rows[i]);
        assert rows[..i + 1] == rows[..i] + [rows[i]];
        if rows[i].counted {
          sum := sum + rows[i].amount;
        }
      }
      assert rows[..|rows|] == rows;
    }

    method Record(key: Key, amount: nat, relink: bool)
      modifies this
      ensures rows == RecordDetectedDeposit(old(rows), key, amount, relink)
    {
      for i := 0 to |rows|
        invariant rows == old(rows)
        invariant forall k | 0 <= k < i :: rows[k].key != key
      {
        if rows[i].key == key {
          if relink {
            rows := Relinked(rows, key);
          }
          return;
        }
      }
      rows := rows + [Row(key, amount, true)];
    }
  }
}
