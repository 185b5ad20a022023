/**
 * The results about conversions, for every run from an empty exchange: what the ledger
 * holds, who is paid, when a reserve is used, and how often a swap is sent.
 */
module ConversionTheorems {
  import opened Wrappers
  import opened Ledger
  import opened Conversions
  import opened ConversionInvariants

  // ----- the ledger, account by account

  /** The postings made for conversions; the rest of the exchange posts under other keys. */
  function ConvertLog(log: Log): Log {
    if log == [] then [] else
      var p := log[|log| - 1];
      ConvertLog(log[..|log| - 1]) + if p.key.OtherKey? then [] else [p]
  }

  /** What one conversion stands for on an account. */
  function Stake(row: Row, released: bool, account: Account): real {
    var reserved := if released then 0.0 else row.fromAmount;
    var net := if row.status == Filled && row.actual.Some? then row.actual.value else 0.0;
    var fee := if row.status == Filled then row.fee else 0.0;
    (if account == Clearing(row.from) then reserved else 0.0)
    - (if account == Spot(row.user, row.from) then reserved else 0.0)
    - (if account == Clearing(row.to) then net + fee else 0.0)
    + (if account == Spot(row.user, row.to) then net else 0.0)
    + (if account == Fees(row.to) then fee else 0.0)
  }

  function Due(convs: seq<Conv>, log: Log, account: Account): real {
    if convs == [] then 0.0 else
      var i := |convs| - 1;
      Due(convs[..i], log, account) + Stake(convs[i].row, HasKey(log, ConvertRelease(i)), account)
  }

  ghost predicate Law(w: World, account: Account) {
    Balance(ConvertLog(w.log), OneAccount(account)) == Due(w.convs, w.log, account)
  }

  /** The rows and releases that matter to Due agree everywhere but at `id`. */
  ghost predicate SameBut(convs: seq<Conv>, log: Log, convs': seq<Conv>, log': Log, id: nat) {
    && |convs| == |convs'|
    && (forall j | 0 <= j < |convs| && j != id :: convs'[j].row == convs[j].row)
    && (forall j | 0 <= j < |convs| && j != id :: HasKey(log', ConvertRelease(j)) == HasKey(log, ConvertRelease(j)))
  }

  lemma {:induction false} DueFrame(convs: seq<Conv>, log: Log, convs': seq<Conv>, log': Log, id: nat, account: Account)
    requires SameBut(convs, log, convs', log', id)
    ensures Due(convs', log', account) == Due(convs, log, account) +
                                          if id < |convs| then
                                            Stake(convs'[id].row, HasKey(log', ConvertRelease(id)), account) -
                                            Stake(convs[id].row, HasKey(log, ConvertRelease(id)), account)
                                          else 0.0
    decreases |convs|
  {
    if convs != [] {
      var i := |convs| - 1;
      DueFrame(convs[..i], log, convs'[..i], log', id, account);
    }
  }

  lemma {:induction false} ConvertPosting(log: Log, p: Posting, account: Account)
    requires !p.key.OtherKey? && !HasKey(log, p.key) && Acceptable(p.entries)
    ensures Balance(ConvertLog(Posted(log, p)), OneAccount(account)) ==
            Balance(ConvertLog(log), OneAccount(account)) + Net(p.entries, OneAccount(account))
  {
    BalanceAppend(ConvertLog(log), p, OneAccount(account));
  }

  lemma {:induction false} NetOfTransfer(es: seq<Entry>, from: Account, to: Account, amount: real, account: Account)
    requires es == [Entry(from, Debit, amount), Entry(to, Credit, amount)]
    ensures Net(es, OneAccount(account)) ==
            (if account == to then amount else 0.0) - (if account == from then amount else 0.0)
  {
    NetSnoc([], es[0], OneAccount(account));
    NetSnoc([es[0]], es[1], OneAccount(account));
    assert es == [es[0]] + [es[1]] && [es[0]] == [] + [es[0]];
  }

  lemma {:induction false} NetOfTrade(user: UserId, asset: AssetId, net: real, fee: real, account: Account)
    requires fee >= 0.0
    ensures Net(TradeEntries(user, asset, net, fee), OneAccount(account)) ==
            (if account == Spot(user, asset) then net else 0.0) + (if account == Fees(asset) then fee else 0.0)
            - (if account == Clearing(asset) then net + fee else 0.0)
  {
    var es := TradeEntries(user, asset, net, fee);
    var sel := OneAccount(account);
    NetSnoc([], es[0], sel);
    NetSnoc([es[0]], es[1], sel);
    assert [es[0]] == [] + [es[0]] && es[..2] == [es[0]] + [es[1]];
    if fee > 0.0 {
      NetSnoc(es[..2], es[2], sel);
      assert es == es[..2] + [es[2]];
    } else {
      assert es == es[..2];
    }
  }

  /** One posting for one conversion moves both sides of the law alike. */
  lemma {:induction false} PostingKeepsLaw(convs: seq<Conv>, log: Log, convs': seq<Conv>, log': Log, id: nat,
                                           p: Posting, account: Account)
    requires id < |convs| && SameBut(convs, log, convs', log', id)
    requires log' == Posted(log, p) && !p.key.OtherKey? && !HasKey(log, p.key) && Acceptable(p.entries)
    requires Net(p.entries, OneAccount(account)) ==
             Stake(convs'[id].row, HasKey(log', ConvertRelease(id)), account) -
               Stake(convs[id].row, HasKey(log, ConvertRelease(id)), account)
    requires Balance(ConvertLog(log), OneAccount(account)) == Due(convs, log, account)
    ensures Balance(ConvertLog(log'), OneAccount(account)) == Due(convs', log', account)
  {
    DueFrame(convs, log, convs', log', id, account);
    ConvertPosting(log, p, account);
  }

  lemma {:induction false} ExecuteKeepsLaw(cfg: Config, w: World, user: UserId, clientId: string, quoteId: nat,
                                           now: int, admitted: bool, account: Account)
    requires Inv(cfg, w) && Law(w, account)
    ensures Law(Execute(w, user, clientId, quoteId, now, admitted), account)
  {
    if ExecuteRefusal(w, user, clientId, quoteId, now, admitted).None? {
      var n, q := |w.convs|, w.quotes[quoteId];
      var p := Posting(ConvertReserve(n), ReserveEntries(user, q.from, q.fromAmount));
      NoKeysBeyond(cfg, w, n);
      var w' := Execute(w, user, clientId, quoteId, now, admitted);
      assert w'.log == Posted(w.log, p) && w'.convs[..n] == w.convs;
      NewRowKeepsLaw(w, w', p, user, q.from, q.fromAmount, account);
    }
  }

  lemma {:induction false} NewRowKeepsLaw(w: World, w': World, p: Posting, user: UserId, from: AssetId, amount: real,
                                          account: Account)
    requires Law(w, account) && w'.log == Posted(w.log, p)
    requires |w'.convs| == |w.convs| + 1 && w'.convs[..|w.convs|] == w.convs
    requires p == Posting(ConvertReserve(|w.convs|), ReserveEntries(user, from, amount))
    requires !HasKey(w.log, p.key) && Acceptable(p.entries) && !HasKey(w.log, ConvertRelease(|w.convs|))
    requires
      var row := w'.convs[|w.convs|].row;
      row.user == user && row.from == from && row.fromAmount == amount && row.status == Pending
    ensures Law(w', account)
  {
    var n := |w.convs|;
    forall j | 0 <= j <= n ensures HasKey(w'.log, ConvertRelease(j)) == HasKey(w.log, ConvertRelease(j)) {
      KeysAfter(w.log, p, ConvertRelease(j));
    }
    DueFrame(w.convs, w.log, w.convs, w'.log, n, account);
    assert Due(w'.convs, w'.log, account) == Due(w.convs, w.log, account) + Stake(w'.convs[n].row, false, account);
    ReservingIsTheReserve(w'.convs[n].row, account);
    ConvertPosting(w.log, p, account);
  }

  /** A new row's stake is exactly the reservation posted for it. */
  lemma {:induction false} ReservingIsTheReserve(row: Row, account: Account)
    requires row.status == Pending
    ensures Net(ReserveEntries(row.user, row.from, row.fromAmount), OneAccount(account)) == Stake(row, false, account)
  {
    NetOfTransfer(ReserveEntries(row.user, row.from, row.fromAmount), Spot(row.user, row.from), Clearing(row.from),
                  row.fromAmount, account);
  }

  /** Filling a row changes its stake by exactly the trade posted for it. */
  lemma {:induction false} FillingIsTheTrade(row: Row, net: real, fee: real, account: Account)
    requires row.status != Filled && fee >= 0.0
    ensures Net(TradeEntries(row.user, row.to, net, fee), OneAccount(account)) ==
            Stake(row.(status := Filled, actual := Some(net), fee := fee), false, account) - Stake(row, false, account)
  {
    NetOfTrade(row.user, row.to, net, fee, account);
  }

  /** Releasing a row gives its stake back. */
  lemma {:induction false} ReleasingIsTheRelease(row: Row, account: Account)
    requires row.status != Filled
    ensures Net(ReleaseEntries(row.user, row.from, row.fromAmount), OneAccount(account)) ==
            Stake(row.(status := Failed), true, account) - Stake(row, false, account)
  {
    NetOfTransfer(ReleaseEntries(row.user, row.from, row.fromAmount), Clearing(row.from), Spot(row.user, row.from),
                  row.fromAmount, account);
  }

  /** What Inv says of the keys of a conversion that a worker is finishing. */
  lemma {:induction false} WorkerKeys(cfg: Config, w: World, id: nat)
    requires Inv(cfg, w) && id < |w.convs| && (w.convs[id].pc.Settling? || w.convs[id].pc.Failing?)
    ensures
      var c := w.convs[id];
      && c.row.fromAmount > 0.0 && c.row.fee >= 0.0
      && c.row.status != Pending && c.row.status != Failed && c.row.status != Cancelled
      && (c.pc.Settling? ==> c.row.status == Executing && (c.pc.feeOverride.Some? ==> c.pc.feeOverride.value >= 0.0))
      && (HasKey(w.log, ConvertTrade(id)) <==> c.row.status == Filled)
      && !HasKey(w.log, ConvertRelease(id))
  {
    assert ConvAt(cfg, w, id);
  }

  lemma {:induction false} SettleKeepsLaw(cfg: Config, w: World, id: nat, lost: bool, account: Account)
    requires Inv(cfg, w) && Law(w, account)
    ensures Law(Settle(w, id, lost), account)
  {
    if id < |w.convs| && w.convs[id].pc.Settling? {
      WorkerKeys(cfg, w, id);
      var c := w.convs[id];
      SettledRowKeepsLaw(w, id, c.pc.net, c.pc.feeOverride, account);
      SettleIsItsTransaction(w, id, lost);
      PcKeepsLaw(SettleTransaction(w, id, c.pc.net, c.pc.feeOverride), Settle(w, id, lost), account);
    }
  }

  lemma {:induction false} SettleIsItsTransaction(w: World, id: nat, lost: bool)
    requires id < |w.convs| && w.convs[id].pc.Settling?
    ensures
      var s, w' := SettleTransaction(w, id, w.convs[id].pc.net, w.convs[id].pc.feeOverride), Settle(w, id, lost);
      && w'.log == s.log && |w'.convs| == |s.convs|
      && forall j | 0 <= j < |s.convs| :: w'.convs[j].row == s.convs[j].row
  {
  }

  lemma {:induction false} PcKeepsLaw(w: World, w': World, account: Account)
    requires Law(w, account) && w'.log == w.log && |w'.convs| == |w.convs|
    requires forall j | 0 <= j < |w.convs| :: w'.convs[j].row == w.convs[j].row
    ensures Law(w', account)
  {
    DueFrame(w.convs, w.log, w'.convs, w'.log, |w.convs|, account);
  }

  lemma {:induction false} SettledRowKeepsLaw(w: World, id: nat, net: real, feeOverride: Option<real>, account: Account)
    requires id < |w.convs| && Law(w, account)
    requires w.convs[id].row.status == Executing && w.convs[id].row.fee >= 0.0 &&
             (feeOverride.Some? ==> feeOverride.value >= 0.0)
    requires !HasKey(w.log, ConvertTrade(id)) && !HasKey(w.log, ConvertRelease(id))
    ensures Law(SettleTransaction(w, id, net, feeOverride), account)
  {
    var c := w.convs[id];
    var p := TradePosting(c.row, id, net, feeOverride);
    if SettleCommits(w, id, net, feeOverride) {
      var w' := SettleTransaction(w, id, net, feeOverride);
      forall j | 0 <= j < |w.convs| ensures HasKey(w'.log, ConvertRelease(j)) == HasKey(w.log, ConvertRelease(j)) {
        KeysAfter(w.log, p, ConvertRelease(j));
      }
      FillingIsTheTrade(c.row, net, if feeOverride.Some? then feeOverride.value else c.row.fee, account);
      PostingKeepsLaw(w.convs, w.log, w'.convs, w'.log, id, p, account);
    }
  }

  lemma {:induction false} FailKeepsLaw(cfg: Config, w: World, id: nat, account: Account)
    requires Inv(cfg, w) && Law(w, account)
    ensures Law(Fail(w, id), account)
  {
    if id < |w.convs| && w.convs[id].pc.Failing? {
      WorkerKeys(cfg, w, id);
      FailedRowKeepsLaw(w, id, w.convs[id].pc.release, account);
      PcKeepsLaw(FailTransaction(w, id, w.convs[id].pc.release), Fail(w, id), account);
    }
  }

  lemma {:induction false} FailedRowKeepsLaw(w: World, id: nat, release: bool, account: Account)
    requires id < |w.convs| && Law(w, account) && !HasKey(w.log, ConvertRelease(id)) && w.convs[id].row.fromAmount > 0.0
    ensures Law(FailTransaction(w, id, release), account)
  {
    var c := w.convs[id];
    var p := ReleasePosting(c.row, id);
    var w' := FailTransaction(w, id, release);
    ReserveIsAcceptable(c.row.user, c.row.from, c.row.fromAmount);
    if c.row.status == Filled || c.row.status == Cancelled {
    } else if release {
      forall j | 0 <= j < |w.convs|
        ensures HasKey(w'.log, ConvertRelease(j)) <==> HasKey(w.log, ConvertRelease(j)) || j == id
      {
        KeysAfter(w.log, p, ConvertRelease(j));
      }
      ReleasingIsTheRelease(c.row, account);
      PostingKeepsLaw(w.convs, w.log, w'.convs, w'.log, id, p, account);
    } else {
      DueFrame(w.convs, w.log, w'.convs, w'.log, id, account);
    }
  }

  lemma {:induction false} OtherPostingKeepsLaw(w: World, p: Posting, account: Account)
    requires Law(w, account) && p.key.OtherKey?
    ensures Law(w.(log := Posted(w.log, p)), account)
  {
    var log' := Posted(w.log, p);
    assert ConvertLog(log') == ConvertLog(w.log);
    forall j | 0 <= j < |w.convs| ensures HasKey(log', ConvertRelease(j)) == HasKey(w.log, ConvertRelease(j)) {
      KeysAfter(w.log, p, ConvertRelease(j));
    }
    DueFrame(w.convs, w.log, w.convs, log', |w.convs|, account);
  }

  /** Rows that are not filled keep their stake when only status, hash or attempts change. */
  lemma {:induction false} RowKeepsLaw(w: World, id: nat, c: Conv, account: Account)
    requires id < |w.convs| && Law(w, account)
    requires
      var r := w.convs[id].row;
      c.row.(status := r.status, txHash := r.txHash, attempts := r.attempts) == r &&
        (c.row.status == Filled <==> r.status == Filled)
    ensures Law(w.(convs := w.convs[id := c]), account)
  {
    DueFrame(w.convs, w.log, w.convs[id := c], w.log, id, account);
  }

  lemma {:induction false} WorkMovesNoMoney(cfg: Config, liabilities: real, c: Conv, act: Act)
    requires ControlOk(c)
    ensures
      var r, r' := c.row, Work(cfg, liabilities, c, act).row;
      r'.(status := r.status, txHash := r.txHash) == r && (r'.status == Filled <==> r.status == Filled)
  {
  }

  lemma {:induction false} QuoteKeepsLaw(cfg: Config, w: World, e: Event, account: Account)
    requires Law(w, account) && e.QuoteEvent?
    ensures Law(Step(cfg, w, e), account)
  {
    assert Step(cfg, w, e).convs == w.convs && Step(cfg, w, e).log == w.log;
  }

  lemma {:induction false} ClaimKeepsLaw(cfg: Config, w: World, id: nat, account: Account)
    requires Law(w, account)
    ensures Law(Step(cfg, w, ClaimEvent(id)), account)
  {
    if Claimable(w, id) {
      RowKeepsLaw(w, id, Claim(w, id).convs[id], account);
    }
  }

  lemma {:induction false} WorkOnKeepsLaw(cfg: Config, w: World, id: nat, act: Act, account: Account)
    requires Inv(cfg, w) && Law(w, account)
    ensures Law(WorkOn(cfg, w, id, act), account)
  {
    if id < |w.convs| {
      assert ConvAt(cfg, w, id);
      var liabilities := Liabilities(w.log, w.convs[id].row.to);
      WorkMovesNoMoney(cfg, liabilities, w.convs[id], act);
      RowKeepsLaw(w, id, Work(cfg, liabilities, w.convs[id], act), account);
    }
  }

  /** The events that touch the ledger, and those that do not. */
  lemma {:induction false} StepKeepsLaw(cfg: Config, w: World, e: Event, account: Account)
    requires ValidConfig(cfg) && Inv(cfg, w) && Law(w, account)
    ensures Law(Step(cfg, w, e), account)
  {
    if e.ExecuteEvent? {
      ExecuteKeepsLaw(cfg, w, e.user, e.clientId, e.quoteId, e.now, e.admitted, account);
    } else if e.SettleEvent? {
      SettleKeepsLaw(cfg, w, e.id, e.lost, account);
    } else if e.FailEvent? {
      FailKeepsLaw(cfg, w, e.id, account);
    } else if e.OtherPosting? {
      OtherPostingKeepsLaw(w, Posting(OtherKey(e.name), e.entries), account);
    } else {
      QuietStepKeepsLaw(cfg, w, e, account);
    }
  }

  lemma {:induction false} QuietStepKeepsLaw(cfg: Config, w: World, e: Event, account: Account)
    requires Inv(cfg, w) && Law(w, account)
    requires e.QuoteEvent? || e.ClaimEvent? || e.WorkEvent?
    ensures Law(Step(cfg, w, e), account)
  {
    match e
    case QuoteEvent(_, _, _, _, _, _, _, _, _) => QuoteKeepsLaw(cfg, w, e, account);
    case ClaimEvent(id) => ClaimKeepsLaw(cfg, w, id, account);
    case WorkEvent(id, act) => WorkOnKeepsLaw(cfg, w, id, act, account);
  }

  lemma {:induction false} ReplayKeepsLaw(cfg: Config, w: World, events: seq<Event>, account: Account)
    requires ValidConfig(cfg) && Inv(cfg, w) && Law(w, account)
    ensures Law(Replay(cfg, w, events), account)
    decreases |events|
  {
    if events != [] {
      StepKeeps(cfg, w, events[0]);
      StepKeepsLaw(cfg, w, events[0], account);
      ReplayKeepsLaw(cfg, Step(cfg, w, events[0]), events[1..], account);
    }
  }

  /**
   * Over every interleaving, what conversions put on an account is the sum of what each one stands for:
   * a provider clearing account holds the unreleased inputs less the gross outputs of filled conversions.
   */
  lemma {:induction false} ConversionsExplainTheLedger(cfg: Config, events: seq<Event>, account: Account)
    requires ValidConfig(cfg)
    ensures var w := Replay(cfg, EMPTY, events);
            Balance(ConvertLog(w.log), OneAccount(account)) == Due(w.convs, w.log, account)
  {
    ReplayKeepsLaw(cfg, EMPTY, events, account);
  }

  /** The inputs in an asset that have been reserved and not released. */
  function UnreleasedFrom(convs: seq<Conv>, log: Log, asset: AssetId): real {
    if convs == [] then 0.0 else
      var i := |convs| - 1;
      UnreleasedFrom(convs[..i], log, asset) +
      if convs[i].row.from == asset && !HasKey(log, ConvertRelease(i)) then convs[i].row.fromAmount else 0.0
  }

  /** What filled conversions into an asset have paid out, fee included. */
  function GrossInto(convs: seq<Conv>, asset: AssetId): real {
    if convs == [] then 0.0 else
      var row := convs[|convs| - 1].row;
      GrossInto(convs[..|convs| - 1], asset) +
      if row.to == asset && row.status == Filled && row.actual.Some? then row.actual.value + row.fee else 0.0
  }

  lemma {:induction false} DueOnClearing(convs: seq<Conv>, log: Log, asset: AssetId)
    requires forall i | 0 <= i < |convs| :: convs[i].row.status == Filled ==> convs[i].row.actual.Some?
    ensures Due(convs, log, Clearing(asset)) == UnreleasedFrom(convs, log, asset) - GrossInto(convs, asset)
    decreases |convs|
  {
    if convs != [] {
      DueOnClearing(convs[..|convs| - 1], log, asset);
    }
  }

  /** The clearing account of an asset: reserved and unreleased inputs less gross outputs. */
  lemma {:induction false} ClearingIsTheDifference(cfg: Config, events: seq<Event>, asset: AssetId)
    requires ValidConfig(cfg)
    ensures var w := Replay(cfg, EMPTY, events);
            Balance(ConvertLog(w.log), OneAccount(Clearing(asset))) ==
              UnreleasedFrom(w.convs, w.log, asset) - GrossInto(w.convs, asset)
  {
    var w := Replay(cfg, EMPTY, events);
    ConversionsExplainTheLedger(cfg, events, Clearing(asset));
    forall i: nat | i < |w.convs| ensures w.convs[i].row.status == Filled ==> w.convs[i].row.actual.Some? {
      FilledPaysTheMinimum(cfg, events, i);
    }
    DueOnClearing(w.convs, w.log, asset);
  }

  /** All accounts of an asset always sum to zero, whatever the rest of the exchange posts. */
  lemma {:induction false} ExchangeBalancesSumToZero(cfg: Config, events: seq<Event>, accounts: seq<Account>,
                                                     asset: AssetId)
    requires ValidConfig(cfg)
    requires Distinct(accounts) && forall i | 0 <= i < |accounts| :: accounts[i].asset == asset
    requires Names(accounts, AllEntries(Replay(cfg, EMPTY, events).log), asset)
    ensures SumOfBalances(accounts, AllEntries(Replay(cfg, EMPTY, events).log)) == 0.0
  {
    var w := Replay(cfg, EMPTY, events);
    ReplayKeeps(cfg, EMPTY, events);
    SoundIsLevel(w.log, asset);
    BalancesPartitionTheAsset(accounts, AllEntries(w.log), asset);
  }

  // ----- conversion by conversion

  /** Trade posted iff FILLED, release only if FAILED, never both; one quote, one conversion. */
  lemma {:induction false} PostingsMatchStatus(cfg: Config, events: seq<Event>, i: nat)
    requires ValidConfig(cfg) && i < |Replay(cfg, EMPTY, events).convs|
    ensures var w := Replay(cfg, EMPTY, events);
            && HasKey(w.log, ConvertReserve(i))
            && (HasKey(w.log, ConvertTrade(i)) <==> w.convs[i].row.status == Filled)
            && (HasKey(w.log, ConvertRelease(i)) ==> w.convs[i].row.status == Failed)
            && !(HasKey(w.log, ConvertTrade(i)) && HasKey(w.log, ConvertRelease(i)))
            && forall j | 0 <= j < |w.convs| && j != i :: w.convs[j].row.quote != w.convs[i].row.quote
  {
    ReplayKeeps(cfg, EMPTY, events);
    assert ConvAt(cfg, Replay(cfg, EMPTY, events), i);
  }

  /** A filled conversion pays at least the quoted minimum, on the reserve and on the 1inch route. */
  lemma {:induction false} FilledPaysTheMinimum(cfg: Config, events: seq<Event>, i: nat)
    requires ValidConfig(cfg)
    ensures var w := Replay(cfg, EMPTY, events);
            i < |w.convs| && w.convs[i].row.status == Filled ==>
              w.convs[i].row.actual.Some? && w.convs[i].row.actual.value >= w.convs[i].row.min &&
                w.convs[i].row.fee >= 0.0
  {
    ReplayKeeps(cfg, EMPTY, events);
    var w := Replay(cfg, EMPTY, events);
    if i < |w.convs| {
      assert ConvAt(cfg, w, i);
    }
  }

  /** Whatever retries, crashes and failed writes do, custody is handed at most one swap for a conversion. */
  lemma {:induction false} AtMostOneSwap(cfg: Config, events: seq<Event>, i: nat)
    requires ValidConfig(cfg) && i < |Replay(cfg, EMPTY, events).convs|
    ensures Replay(cfg, EMPTY, events).convs[i].trail.handed <= 1
  {
    ReplayKeeps(cfg, EMPTY, events);
    assert ConvAt(cfg, Replay(cfg, EMPTY, events), i);
  }

  /** Funds go back only if no swap reached the chain, it reverted, or a call after it failed. */
  lemma {:induction false} ReleaseIsSafeWithoutFaults(cfg: Config, events: seq<Event>, i: nat)
    requires ValidConfig(cfg) && i < |Replay(cfg, EMPTY, events).convs|
    ensures var w := Replay(cfg, EMPTY, events);
            var t := w.convs[i].trail;
            HasKey(w.log, ConvertRelease(i)) ==> t.landed == 0 || t.reverted || t.fault
  {
    ReplayKeeps(cfg, EMPTY, events);
    assert ConvAt(cfg, Replay(cfg, EMPTY, events), i);
  }

  /** A swap of the conversion has reached the chain and has not reverted, and nothing has failed it yet. */
  predicate Standing(c: Conv) {
    c.row.status == Executing && c.trail.landed > 0 && !c.trail.reverted && !c.pc.Failing?
  }

  /** The steps of its worker after which the row is failed with its funds released. */
  predicate GivesUp(pc: Pc, act: Act) {
    match act
    case Throw => pc == Loading || pc.Sent? || pc == Waiting || pc.Settling?
    case StoreHash(lost) => lost && pc.Sent?
    case ReceiptReverted => pc == Waiting
    case _ => false
  }

  lemma {:induction false} StandingIsUnreleased(cfg: Config, w: World, id: nat)
    requires Inv(cfg, w) && id < |w.convs| && Standing(w.convs[id])
    ensures var c := w.convs[id];
            && !HasKey(w.log, ConvertRelease(id)) && !HasKey(w.log, ConvertTrade(id))
            && c.row.fromAmount > 0.0 && c.row.provider == OneInch && c.pc != Preparing
            && (c.pc == Loading ==> c.row.txHash.Some? && c.row.metadataOk)
            && (c.pc.Settling? ==> c.pc.net > 0.0 && c.pc.feeOverride.Some? && c.pc.feeOverride.value >= 0.0)
  {
    assert ConvAt(cfg, w, id);
  }

  /** A step of the worker: it leads to a release exactly if it gives up. */
  lemma {:induction false} StandingStep(cfg: Config, w: World, id: nat, act: Act)
    requires Inv(cfg, w) && id < |w.convs| && Standing(w.convs[id])
    ensures
      var w1 := WorkOn(cfg, w, id, act);
      && w1.log == w.log && id < |w1.convs|
      && w1.convs[id].row.status in {Executing, Pending} && w1.convs[id].row.fromAmount > 0.0
      && (w1.convs[id].pc == Failing(true) <==> GivesUp(w.convs[id].pc, act))
      && w1.convs[id].trail.landed == w.convs[id].trail.landed
      && (GivesUp(w.convs[id].pc, act) ==> w1.convs[id].trail.reverted == act.ReceiptReverted?)
  {
    StandingIsUnreleased(cfg, w, id);
  }

  /** Failing an unreleased row releases its funds exactly if asked for, and unless it is FILLED. */
  lemma {:induction false} FailReleases(w: World, id: nat)
    requires id < |w.convs| && w.convs[id].row.status != Cancelled && w.convs[id].row.fromAmount > 0.0
    requires !HasKey(w.log, ConvertRelease(id))
    ensures
      var c, w' := w.convs[id], Fail(w, id);
      && (HasKey(w'.log, ConvertRelease(id)) <==> c.pc == Failing(true) && c.row.status != Filled)
      && id < |w'.convs| && w'.convs[id].trail == c.trail
      && (HasKey(w'.log, ConvertRelease(id)) ==> w'.convs[id].row.status == Failed)
  {
    var row := w.convs[id].row;
    ReserveIsAcceptable(row.user, row.from, row.fromAmount);
    KeysAfter(w.log, ReleasePosting(row, id), ConvertRelease(id));
  }

  /** Its settlement commits, with or without its answer. */
  lemma {:induction false} StandingSettles(cfg: Config, w: World, id: nat, lost: bool)
    requires Inv(cfg, w) && id < |w.convs| && Standing(w.convs[id])
    ensures
      var w1 := Settle(w, id, lost);
      && id < |w1.convs| && !HasKey(w1.log, ConvertRelease(id))
      && (w1.convs[id].pc.Failing? ==> w1.convs[id].row.status == Filled)
      && w1.convs[id].row.status != Cancelled && w1.convs[id].row.fromAmount > 0.0
      && w1.convs[id].trail.landed == w.convs[id].trail.landed
  {
    StandingIsUnreleased(cfg, w, id);
    var c := w.convs[id];
    if c.pc.Settling? {
      TradeIsAcceptable(c.row.user, c.row.to, c.pc.net, c.pc.feeOverride.value);
      KeysAfter(w.log, TradePosting(c.row, id, c.pc.net, c.pc.feeOverride), ConvertRelease(id));
    }
  }

  /** What happens to other rows, quotes and accounts leaves the row alone. */
  lemma {:induction false} OthersSpare(cfg: Config, w: World, id: nat, e: Event)
    requires Inv(cfg, w) && id < |w.convs| && Standing(w.convs[id])
    requires !(e.WorkEvent? && e.id == id) && !(e.SettleEvent? && e.id == id)
    ensures var w1 := Step(cfg, w, e);
            id < |w1.convs| && w1.convs[id] == w.convs[id] && !HasKey(w1.log, ConvertRelease(id))
  {
    StandingIsUnreleased(cfg, w, id);
    if e.ExecuteEvent? {
      ExecuteSpares(w, id, e);
    } else if e.SettleEvent? {
      if e.id < |w.convs| && w.convs[e.id].pc.Settling? {
        KeysAfter(w.log, TradePosting(w.convs[e.id].row, e.id, w.convs[e.id].pc.net, w.convs[e.id].pc.feeOverride),
                  ConvertRelease(id));
      }
    } else if e.FailEvent? {
      if e.id < |w.convs| {
        KeysAfter(w.log, ReleasePosting(w.convs[e.id].row, e.id), ConvertRelease(id));
      }
    } else if e.OtherPosting? {
      KeysAfter(w.log, Posting(OtherKey(e.name), e.entries), ConvertRelease(id));
    }
  }

  lemma {:induction false} ExecuteSpares(w: World, id: nat, e: Event)
    requires e.ExecuteEvent? && id < |w.convs| && !HasKey(w.log, ConvertRelease(id))
    ensures var w1 := Execute(w, e.user, e.clientId, e.quoteId, e.now, e.admitted);
            id < |w1.convs| && w1.convs[id] == w.convs[id] && !HasKey(w1.log, ConvertRelease(id))
  {
    if e.quoteId < |w.quotes| {
      var q := w.quotes[e.quoteId];
      var posting := Posting(ConvertReserve(|w.convs|), ReserveEntries(e.user, q.from, q.fromAmount));
      KeysAfter(w.log, posting, ConvertRelease(id));
    }
  }

  /**
   * In every state with a standing swap and for every event: failing the row afterwards releases the funds exactly
   * if the event is one of those steps, and then the swap stands unless its receipt has shown a revert.
   */
  lemma {:induction false} StandingSwapIsReleased(cfg: Config, w: World, id: nat, e: Event)
    requires Inv(cfg, w) && id < |w.convs| && Standing(w.convs[id])
    ensures
      var w' := Fail(Step(cfg, w, e), id);
      var gives := e.WorkEvent? && e.id == id && GivesUp(w.convs[id].pc, e.act);
      && (HasKey(w'.log, ConvertRelease(id)) <==> gives)
      && id < |w'.convs| && w'.convs[id].trail.landed == w.convs[id].trail.landed
      && (gives ==> w'.convs[id].row.status == Failed && w'.convs[id].trail.reverted == e.act.ReceiptReverted?)
  {
    StandingIsUnreleased(cfg, w, id);
    if e.WorkEvent? && e.id == id {
      StandingStep(cfg, w, id, e.act);
      FailReleases(WorkOn(cfg, w, id, e.act), id);
    } else if e.SettleEvent? && e.id == id {
      StandingSettles(cfg, w, id, e.lost);
      FailReleases(Settle(w, id, e.lost), id);
    } else {
      OthersSpare(cfg, w, id, e);
      FailReleases(Step(cfg, w, e), id);
    }
  }

  /** The steps that end with the funds released while the swap stands: a fault of the worker after its swap landed. */
  predicate LosesTheSwap(c: Conv, act: Act) {
    match act
    case Throw => c.trail.landed > 0 && (c.pc == Loading || c.pc.Sent? || c.pc == Waiting || c.pc.Settling?)
    case StoreHash(lost) => lost && c.pc.Sent?
    case SendSwapThrows(landed) => landed && c.pc == Preparing
    case _ => false
  }

  predicate ReleasedWhileItStands(w: World, id: nat) {
    id < |w.convs| && HasKey(w.log, ConvertRelease(id)) && w.convs[id].trail.landed > 0 && !w.convs[id].trail.reverted
  }

  /** A send that puts a swap on the chain. */
  predicate LandsASwap(c: Conv, act: Act) {
    c.pc == Preparing && (act.SendSwap? || (act.SendSwapThrows? && act.landed))
  }

  lemma {:induction false} SettleKeepsLanded(w: World, id: nat, j: nat, lost: bool)
    requires j < |w.convs|
    ensures j < |Settle(w, id, lost).convs| && Settle(w, id, lost).convs[j].trail.landed == w.convs[j].trail.landed
  {
  }

  /** Only a send of its own worker puts a swap of the conversion on the chain. */
  lemma {:induction false} LandedBySends(cfg: Config, w: World, id: nat, e: Event)
    requires id < |w.convs|
    ensures
      var w1 := Step(cfg, w, e);
      var lands := e.WorkEvent? && e.id == id && LandsASwap(w.convs[id], e.act);
      id < |w1.convs| && w1.convs[id].trail.landed == w.convs[id].trail.landed + if lands then 1 else 0
  {
    if e.WorkEvent? {
      assert Step(cfg, w, e) == WorkOn(cfg, w, e.id, e.act);
    } else if e.SettleEvent? {
      SettleKeepsLanded(w, e.id, id, e.lost);
    } else if e.FailEvent? && e.id < |w.convs| {
      assert e.id != id ==> Fail(w, e.id).convs[id] == w.convs[id];
    }
  }

  lemma {:induction false} SentAndLost(cfg: Config, w: World, id: nat, act: Act)
    requires Inv(cfg, w) && id < |w.convs| && w.convs[id].pc == Preparing && w.convs[id].row.status == Executing
    requires w.convs[id].trail.landed == 0 && !w.convs[id].trail.reverted
    ensures ReleasedWhileItStands(Fail(WorkOn(cfg, w, id, act), id), id) <==> act.SendSwapThrows? && act.landed
  {
    assert ConvAt(cfg, w, id);
    var w1 := WorkOn(cfg, w, id, act);
    if act.SendSwapThrows? {
      FailReleases(w1, id);
    }
  }

  /**
   * For every event in every state of an EXECUTING row: failing the row afterwards leaves its funds released while
   * its swap stands exactly if the event is one of those steps.
   */
  lemma {:induction false} FundsAndSwapAreBothGone(cfg: Config, w: World, id: nat, e: Event)
    requires Inv(cfg, w) && id < |w.convs|
    requires w.convs[id].row.status == Executing && !w.convs[id].trail.reverted && !w.convs[id].pc.Failing?
    ensures ReleasedWhileItStands(Fail(Step(cfg, w, e), id), id) <==>
            e.WorkEvent? && e.id == id && LosesTheSwap(w.convs[id], e.act)
  {
    var c := w.convs[id];
    assert ConvAt(cfg, w, id);
    LandedBySends(cfg, w, id, e);
    if c.trail.landed > 0 {
      StandingSwapIsReleased(cfg, w, id, e);
    } else if e.WorkEvent? && e.id == id && c.pc == Preparing {
      SentAndLost(cfg, w, id, e.act);
    }
  }

  /**
   * The hypothesis is needed in every such state: a swap is acknowledged, the hash is not stored,
   * and the conversion ends FAILED with its funds released while the swap stands.
   */
  lemma {:induction false} LostHashReleasesFunds(cfg: Config, w: World, id: nat)
    requires ValidConfig(cfg) && Inv(cfg, w) && id < |w.convs|
    requires w.convs[id].pc.Sent? && w.convs[id].row.status == Executing
    ensures var w' := Fail(WorkOn(cfg, w, id, Throw), id);
            && HasKey(w'.log, ConvertRelease(id))
            && id < |w'.convs| && w'.convs[id].row.status == Failed
            && w'.convs[id].trail.landed == 1 && w'.convs[id].trail.reverted == w.convs[id].trail.reverted
  {
    var w1 := WorkOn(cfg, w, id, Throw);
    assert ConvAt(cfg, w, id);
    var row := w1.convs[id].row;
    ReserveIsAcceptable(row.user, row.from, row.fromAmount);
    KeysAfter(w.log, ReleasePosting(row, id), ConvertRelease(id));
  }

  /** A quote the user may take, which is out of date. */
  predicate Stale(w: World, user: UserId, quoteId: nat, now: int) {
    && quoteId < |w.quotes| && w.quotes[quoteId].user == user
    && w.quotes[quoteId].status == Active && w.quotes[quoteId].expiresAt <= now
  }

  /** The world a transaction has written when it ends, stored or not. */
  function Written(tx: Transaction): World {
    match tx
    case Commits(stored) => stored
    case Throws(local, _) => local
  }

  predicate TurnsExpired(w: World, w': World) {
    exists q :: 0 <= q < |w.quotes| && q < |w'.quotes| &&
      w.quotes[q].status != Expired && w'.quotes[q].status == Expired
  }

  /** EXPIRED is written exactly for a stale quote, inside the transaction, and the throw takes every write back. */
  lemma {:induction false} ExpiryIsRolledBack(w: World, user: UserId, clientId: string, quoteId: nat, now: int,
                                              admitted: bool)
    ensures var tx := ExecuteTransaction(w, user, clientId, quoteId, now, admitted);
            && (TurnsExpired(w, Written(tx)) <==> Stale(w, user, quoteId, now))
            && (tx.Throws? ==> Execute(w, user, clientId, quoteId, now, admitted) == w)
    ensures !TurnsExpired(w, Execute(w, user, clientId, quoteId, now, admitted))
  {
    if Stale(w, user, quoteId, now) {
      var tx := ExecuteTransaction(w, user, clientId, quoteId, now, admitted);
      assert Written(tx).quotes[quoteId].status == Expired;
    }
  }

  /** So no run ever stores EXPIRED. */
  lemma {:induction false} NoQuoteIsStoredExpired(cfg: Config, events: seq<Event>, q: nat)
    requires ValidConfig(cfg) && q < |Replay(cfg, EMPTY, events).quotes|
    ensures Replay(cfg, EMPTY, events).quotes[q].status != Expired
  {
    ReplayKeeps(cfg, EMPTY, events);
  }

  // ----- reserve coverage

  lemma {:induction false} NetOfLiabilities(user: UserId, asset: AssetId, net: real, fee: real)
    ensures Net(TradeEntries(user, asset, net, fee), WholeType(UserSpot, asset)) == net
  {
    var es, sel := TradeEntries(user, asset, net, fee), WholeType(UserSpot, asset);
    NetSnoc([], es[0], sel);
    NetSnoc([es[0]], es[1], sel);
    assert [es[0]] == [] + [es[0]] && es[..2] == [es[0]] + [es[1]];
    if fee > 0.0 {
      NetSnoc(es[..2], es[2], sel);
      assert es == es[..2] + [es[2]];
    } else {
      assert es == es[..2];
    }
  }

  /** The custody balance, in basis points, that the check left over. */
  function Slack(cfg: Config, check: Coverage, net: real): real {
    check.custody * 10_000.0 - (check.liabilities + net) * (cfg.coverageBps as real)
  }

  /** What liabilities that have grown from one amount to another take of it. */
  function Growth(cfg: Config, from: real, to: real): real { (to - from) * (cfg.coverageBps as real) }

  /** A committed reserve settlement raises the liabilities in the output asset by what it pays. */
  lemma {:induction false} SettlementRaisesLiabilities(w: World, id: nat, net: real, feeOverride: Option<real>)
    requires id < |w.convs| && w.convs[id].row.status == Executing && !HasKey(w.log, ConvertTrade(id))
    requires SettleCommits(w, id, net, feeOverride)
    ensures var to := w.convs[id].row.to;
            Liabilities(SettleTransaction(w, id, net, feeOverride).log, to) == Liabilities(w.log, to) + net
  {
    var row := w.convs[id].row;
    BalanceAppend(w.log, TradePosting(row, id, net, feeOverride), WholeType(UserSpot, row.to));
    NetOfLiabilities(row.user, row.to, net, if feeOverride.Some? then feeOverride.value else row.fee);
  }

  lemma {:induction false} SettledLiabilities(cfg: Config, w: World, id: nat)
    requires Inv(cfg, w) && id < |w.convs| && w.convs[id].pc.Settling?
    requires SettleCommits(w, id, w.convs[id].pc.net, w.convs[id].pc.feeOverride)
    ensures var c := w.convs[id];
            Liabilities(Settle(w, id, false).log, c.row.to) == Liabilities(w.log, c.row.to) + c.pc.net
  {
    WorkerKeys(cfg, w, id);
    SettleIsItsTransaction(w, id, false);
    SettlementRaisesLiabilities(w, id, w.convs[id].pc.net, w.convs[id].pc.feeOverride);
  }

  lemma {:induction false} CheckHasPassed(cfg: Config, w: World, id: nat, check: Coverage)
    requires Inv(cfg, w) && id < |w.convs|
    requires w.convs[id].row.provider == InternalReserve && w.convs[id].pc.Settling? &&
             w.convs[id].pc.check == Some(check)
    ensures Covers(cfg, check.custody, check.liabilities + w.convs[id].pc.net)
  {
    assert ConvAt(cfg, w, id);
  }

  /**
   * A reserve settlement leaves the custody balance it checked above the coverage of all liabilities
   * exactly when liabilities grew between check and settlement by no more than the slack of the check.
   */
  lemma {:induction false} ReserveStaysCovered(cfg: Config, w: World, id: nat, check: Coverage)
    requires ValidConfig(cfg) && Inv(cfg, w) && id < |w.convs|
    requires w.convs[id].row.provider == InternalReserve && w.convs[id].pc.Settling? &&
             w.convs[id].pc.check == Some(check)
    requires SettleCommits(w, id, w.convs[id].pc.net, w.convs[id].pc.feeOverride)
    ensures
      var to, net := w.convs[id].row.to, w.convs[id].pc.net;
      var before, after := Liabilities(w.log, to), Liabilities(Settle(w, id, false).log, to);
      && (Covers(cfg, check.custody, after) <==> Growth(cfg, check.liabilities, before) <= Slack(cfg, check, net))
      && (before <= check.liabilities ==> Covers(cfg, check.custody, after))
  {
    var to, net := w.convs[id].row.to, w.convs[id].pc.net;
    var before, after := Liabilities(w.log, to), Liabilities(Settle(w, id, false).log, to);
    SettledLiabilities(cfg, w, id);
    CheckHasPassed(cfg, w, id, check);
    Grown(cfg, check, before, after, net);
  }

  /**
   * From the claim on: a worker checks the reserve, any events follow, and it settles.  If liabilities have
   * not grown since the check, the checked custody balance covers them after the settlement too.
   */
  lemma {:induction false} CheckedReserveSettlesCovered(cfg: Config, w: World, id: nat, custody: real,
                                                        middle: seq<Event>)
    requires ValidConfig(cfg) && Inv(cfg, w) && id < |w.convs|
    requires w.convs[id].row.provider == InternalReserve && w.convs[id].pc == Loading
    requires var w2 := Replay(cfg, Step(cfg, w, WorkEvent(id, Load(custody))), middle);
             id < |w2.convs| && StillAsChecked(cfg, w, w2, id, custody)
    ensures var w2 := Replay(cfg, Step(cfg, w, WorkEvent(id, Load(custody))), middle);
            CoveredIfPaid(cfg, w2, id, custody)
  {
    StepKeeps(cfg, w, WorkEvent(id, Load(custody)));
    ReplayKeeps(cfg, Step(cfg, w, WorkEvent(id, Load(custody))), middle);
    SettlesAsChecked(cfg, w, Replay(cfg, Step(cfg, w, WorkEvent(id, Load(custody))), middle), id, custody);
  }

  /** The worker stands where its check left it, and liabilities in the output asset have not grown. */
  ghost predicate StillAsChecked(cfg: Config, w: World, w2: World, id: nat, custody: real)
    requires id < |w.convs| && id < |w2.convs|
  {
    var c, c2 := w.convs[id], w2.convs[id];
    var liabilities := Liabilities(w.log, c.row.to);
    && c2.row.to == c.row.to && c2.row.provider == InternalReserve
    && c2.pc == Work(cfg, liabilities, c, Load(custody)).pc
    && Liabilities(w2.log, c.row.to) <= liabilities
  }

  /** Settling pays only with the given custody balance above the coverage of all liabilities. */
  ghost predicate CoveredIfPaid(cfg: Config, w: World, id: nat, custody: real)
    requires id < |w.convs|
  {
    var paid := Settle(w, id, false);
    && |paid.convs| == |w.convs|
    && (w.convs[id].pc.Settling? && paid.convs[id].row.status == Filled ==>
          Covers(cfg, custody, Liabilities(paid.log, w.convs[id].row.to)))
  }

  lemma {:induction false} SettlesAsChecked(cfg: Config, w: World, w2: World, id: nat, custody: real)
    requires ValidConfig(cfg) && Inv(cfg, w2) && id < |w.convs| && id < |w2.convs|
    requires w.convs[id].row.provider == InternalReserve && w.convs[id].pc == Loading
    requires StillAsChecked(cfg, w, w2, id, custody)
    ensures CoveredIfPaid(cfg, w2, id, custody)
  {
    if w2.convs[id].pc.Settling? {
      ReserveStaysCoveredIfPaid(cfg, w2, id, Coverage(custody, Liabilities(w.log, w.convs[id].row.to)));
      SettleIsItsTransaction(w2, id, false);
    }
  }

  lemma {:induction false} ReserveStaysCoveredIfPaid(cfg: Config, w: World, id: nat, check: Coverage)
    requires ValidConfig(cfg) && Inv(cfg, w) && id < |w.convs|
    requires w.convs[id].row.provider == InternalReserve && w.convs[id].pc.Settling? &&
             w.convs[id].pc.check == Some(check)
    requires Liabilities(w.log, w.convs[id].row.to) <= check.liabilities
    ensures Settle(w, id, false).convs[id].row.status == Filled ==>
              Covers(cfg, check.custody, Liabilities(Settle(w, id, false).log, w.convs[id].row.to))
  {
    WorkerKeys(cfg, w, id);
    if SettleCommits(w, id, w.convs[id].pc.net, w.convs[id].pc.feeOverride) {
      ReserveStaysCovered(cfg, w, id, check);
    }
  }

  lemma {:induction false} Grown(cfg: Config, check: Coverage, before: real, after: real, net: real)
    requires Covers(cfg, check.custody, check.liabilities + net) && after == before + net
    ensures Covers(cfg, check.custody, after) <==> Growth(cfg, check.liabilities, before) <= Slack(cfg, check, net)
    ensures before <= check.liabilities ==> Covers(cfg, check.custody, after)
  {
    var bps := cfg.coverageBps as real;
    assert bps * (before + net) == (check.liabilities + net) * bps + (before - check.liabilities) * bps;
    if before <= check.liabilities {
      assert (check.liabilities - before) * bps >= 0.0;
    }
  }
}
