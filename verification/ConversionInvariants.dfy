/**
 * What every run of the conversion machine keeps: control, money and at most one swap
 * for each conversion, and an exact account of what conversions did to the ledger.
 */
module ConversionInvariants {
  import opened Wrappers
  import opened Ledger
  import opened Conversions

  // ----- the invariant

  /** One conversion, with the postings the ledger holds for it. */
  ghost predicate ConvOk(cfg: Config, c: Conv, reserve: bool, trade: bool, release: bool) {
    && ControlOk(c)
    && SwapOk(c)
    && MoneyOk(cfg, c)
    && reserve
    && (trade <==> c.row.status == Filled)
    && (release ==> c.row.status == Failed)
    && (release && c.trail.landed > 0 ==> c.trail.reverted || c.trail.fault)
  }

  /** A worker holds the row only while it is EXECUTING, or after a settlement whose answer was lost. */
  ghost predicate ControlOk(c: Conv) {
    && c.row.status != Cancelled
    && (c.row.status == Pending || c.row.status == Failed ==> c.pc == Idle)
    && (c.row.status == Filled ==> c.pc == Idle || c.pc == Failing(true))
    && (c.pc == Preparing || c.pc.Sent? || c.pc == Waiting || c.pc == Suspending ==>
        c.row.provider == OneInch && c.row.metadataOk)
  }

  /** At most one swap; a stored hash stands for it wherever the worker could start again. */
  ghost predicate SwapOk(c: Conv) {
    && c.trail.landed <= c.trail.handed <= 1
    && (c.row.provider == InternalReserve ==> c.trail.handed == 0)
    && (c.row.txHash.Some? ==> c.trail.landed == 1 && c.row.metadataOk)
    && (c.pc == Preparing ==> c.trail.handed == 0)
    && (c.pc.Sent? ==> c.trail.landed == 1)
    && (c.row.status == Pending || c.pc == Loading || c.pc == Suspending ==> c.trail.handed == 0 || c.row.txHash.Some?)
    && (c.pc == Waiting || (c.pc.Settling? && c.row.provider == OneInch) ==> c.row.txHash.Some?)
    && (c.pc == Failing(true) && c.row.status == Executing && c.trail.landed > 0 ==> c.trail.reverted || c.trail.fault)
  }

  ghost predicate MoneyOk(cfg: Config, c: Conv) {
    && c.row.fromAmount > 0.0
    && c.row.from != c.row.to
    && c.row.fee >= 0.0
    && (c.row.provider == InternalReserve ==> c.row.expected >= c.row.min)
    && (c.row.status == Filled ==> c.row.actual.Some? && c.row.actual.value >= c.row.min)
    && (c.pc.Settling? ==>
          && c.pc.net >= c.row.min
          && (if c.row.provider == InternalReserve then
                && c.pc.feeOverride.None? && c.pc.check.Some?
                && Covers(cfg, c.pc.check.value.custody, c.pc.check.value.liabilities + c.pc.net)
              else
                && c.pc.check.None? && c.pc.net > 0.0
                && c.pc.feeOverride.Some? && c.pc.feeOverride.value >= 0.0))
  }

  ghost predicate ConvAt(cfg: Config, w: World, i: nat)
    requires i < |w.convs|
  {
    ConvOk(cfg, w.convs[i], HasKey(w.log, ConvertReserve(i)), HasKey(w.log, ConvertTrade(i)),
           HasKey(w.log, ConvertRelease(i)))
  }

  ghost predicate QuoteOk(q: Quote) {
    q.fromAmount > 0.0 && q.from != q.to && q.fee >= 0.0 && q.min <= q.expected && q.status != Expired
  }

  /** Quotes are consumed by exactly one conversion, and clients own their conversion ids. */
  ghost predicate RowsOk(w: World) {
    && (forall i | 0 <= i < |w.quotes| :: QuoteOk(w.quotes[i]))
    && (forall i | 0 <= i < |w.convs| ::
        w.convs[i].row.quote < |w.quotes| && w.quotes[w.convs[i].row.quote].status == Consumed)
    && (forall i, j | 0 <= i < j < |w.convs| :: w.convs[i].row.quote != w.convs[j].row.quote)
    && (forall i, j | 0 <= i < j < |w.convs| ::
          !(w.convs[i].row.user == w.convs[j].row.user && w.convs[i].row.clientId == w.convs[j].row.clientId))
  }

  predicate KeyInRange(key: Key, n: nat) {
    match key
    case ConvertReserve(i) => i < n
    case ConvertTrade(i) => i < n
    case ConvertRelease(i) => i < n
    case OtherKey(_) => true
  }

  ghost predicate Inv(cfg: Config, w: World) {
    && Sound(w.log)
    && (forall k | 0 <= k < |w.log| :: KeyInRange(w.log[k].key, |w.convs|))
    && RowsOk(w)
    && (forall i | 0 <= i < |w.convs| :: ConvAt(cfg, w, i))
  }

  // ----- arithmetic of quotes and outputs

  lemma {:induction false} FeeIsBelowGross(cfg: Config, gross: real)
    requires ValidConfig(cfg) && gross >= 0.0
    ensures 0.0 <= Fee(cfg, gross) <= gross * 3.0 / 100.0
    ensures gross > 0.0 ==> gross - Fee(cfg, gross) > 0.0
  {
    var b := cfg.feeBps as real;
    assert 0.0 <= b <= 300.0;
    assert gross * (300.0 - b) >= 0.0 && gross * b >= 0.0;
    assert gross * (300.0 - b) == gross * 300.0 - gross * b;
  }

  /** A quote's minimum is never above what it expects, and both add up to the quoted output. */
  lemma {:induction false} QuoteArithmetic(cfg: Config, gross: real, slippageBps: nat)
    requires gross >= 0.0 && slippageBps <= 100
    ensures MinOut(cfg, gross, slippageBps) <= gross - Fee(cfg, gross)
    ensures MinOut(cfg, gross, slippageBps) + Fee(cfg, gross) == gross - gross * (slippageBps as real) / 10_000.0
  {
    var s := slippageBps as real;
    assert ((10_000 - slippageBps) as real) == 10_000.0 - s;
    assert gross * (10_000.0 - s) == gross * 10_000.0 - gross * s;
    assert gross * s >= 0.0;
  }

  // ----- keys

  lemma {:induction false} KeysAfter(log: Log, p: Posting, key: Key)
    ensures HasKey(log + [p], key) <==> HasKey(log, key) || key == p.key
  {
    var l := log + [p];
    if HasKey(log, key) {
      var i :| 0 <= i < |log| && log[i].key == key;
      assert l[i].key == key;
    }
    assert l[|log|] == p;
  }

  lemma {:induction false} SoundAfter(log: Log, p: Posting)
    requires Sound(log)
    ensures Sound(Posted(log, p))
    ensures Accepts(log, p) <==> HasKey(Posted(log, p), p.key)
    ensures forall key :: HasKey(Posted(log, p), key) <==> HasKey(log, key) || (key == p.key && Accepts(log, p))
  {
    forall key ensures HasKey(Posted(log, p), key) <==> HasKey(log, key) || (key == p.key && Accepts(log, p)) {
      KeysAfter(log, p, key);
    }
  }

  // ----- each event keeps the invariant

  lemma {:induction false} CreateQuoteKeeps(cfg: Config, w: World, e: Event)
    requires ValidConfig(cfg) && Inv(cfg, w) && e.QuoteEvent?
    ensures Inv(cfg, Step(cfg, w, e))
  {
    var w' := Step(cfg, w, e);
    if w' != w {
      FeeIsBelowGross(cfg, e.gross);
      QuoteArithmetic(cfg, e.gross, e.slippageBps);
      assert w'.convs == w.convs && w'.log == w.log;
      assert forall i | 0 <= i < |w.convs| :: w'.quotes[w.convs[i].row.quote] == w.quotes[w.convs[i].row.quote];
      forall i | 0 <= i < |w'.convs| ensures ConvAt(cfg, w', i) {
        assert ConvAt(cfg, w, i);
      }
    }
  }

  lemma {:induction false} ReserveIsAcceptable(user: UserId, asset: AssetId, amount: real)
    ensures Acceptable(ReserveEntries(user, asset, amount)) <==> amount > 0.0
    ensures Acceptable(ReleaseEntries(user, asset, amount)) <==> amount > 0.0
  {
    TwoEntries(ReserveEntries(user, asset, amount), asset);
    TwoEntries(ReleaseEntries(user, asset, amount), asset);
  }

  lemma {:induction false} TwoEntries(es: seq<Entry>, asset: AssetId)
    requires |es| == 2 && es[0].account.asset == es[1].account.asset == asset && es[0].direction == Debit &&
             es[1].direction == Credit
    ensures DebitTotal(es, asset) == es[0].amount && CreditTotal(es, asset) == es[1].amount
  {
    var first := es[..1];
    assert |first| == 1 && first[0] == es[0] && first[..0] == [];
    assert DebitTotal([], asset) == 0.0 && CreditTotal([], asset) == 0.0;
    assert DebitTotal(first, asset) == es[0].amount && CreditTotal(first, asset) == 0.0;
  }

  lemma {:induction false} TradeIsAcceptable(user: UserId, asset: AssetId, net: real, fee: real)
    ensures fee >= 0.0 ==> (Acceptable(TradeEntries(user, asset, net, fee)) <==> net > 0.0)
  {
    var es := TradeEntries(user, asset, net, fee);
    assert es[1].amount == net;
    TwoEntries(es[..2], asset);
    if fee > 0.0 {
      assert es[..|es| - 1] == es[..2];
    } else {
      assert es == es[..2];
    }
  }

  lemma {:induction false} ExecuteKeeps(cfg: Config, w: World, e: Event)
    requires ValidConfig(cfg) && Inv(cfg, w) && e.ExecuteEvent?
    ensures Inv(cfg, Step(cfg, w, e))
  {
    var w' := Step(cfg, w, e);
    if ExecuteRefusal(w, e.user, e.clientId, e.quoteId, e.now, e.admitted).None? {
      var n, q := |w.convs|, w.quotes[e.quoteId];
      var p := Posting(ConvertReserve(n), ReserveEntries(e.user, q.from, q.fromAmount));
      SoundAfter(w.log, p);
      assert QuoteOk(q);
      NoKeysBeyond(cfg, w, n);
      forall i | 0 <= i < |w'.convs| ensures ConvAt(cfg, w', i) {
        if i < n {
          assert ConvAt(cfg, w, i) && w'.convs[i] == w.convs[i];
        }
      }
      forall i, j | 0 <= i < j < |w'.convs|
        ensures w'.convs[i].row.quote != w'.convs[j].row.quote
        ensures !(w'.convs[i].row.user == w'.convs[j].row.user && w'.convs[i].row.clientId == w'.convs[j].row.clientId)
      {
        if j == n {
          assert !ByClient(w.convs[i], e.user, e.clientId);
        }
      }
    }
  }

  lemma {:induction false} NoKeysBeyond(cfg: Config, w: World, n: nat)
    requires Inv(cfg, w) && n >= |w.convs|
    ensures !HasKey(w.log, ConvertReserve(n)) && !HasKey(w.log, ConvertTrade(n)) && !HasKey(w.log, ConvertRelease(n))
  {
  }

  /** A worker's step leaves the ledger and every other conversion alone. */
  lemma {:induction false} LocalStepKeeps(cfg: Config, w: World, id: nat, c: Conv)
    requires Inv(cfg, w) && id < |w.convs|
    requires c.row.user == w.convs[id].row.user && c.row.clientId == w.convs[id].row.clientId &&
             c.row.quote == w.convs[id].row.quote
    requires ConvOk(cfg, c, HasKey(w.log, ConvertReserve(id)), HasKey(w.log, ConvertTrade(id)),
                    HasKey(w.log, ConvertRelease(id)))
    ensures Inv(cfg, w.(convs := w.convs[id := c]))
  {
    var w' := w.(convs := w.convs[id := c]);
    forall i | 0 <= i < |w'.convs| ensures ConvAt(cfg, w', i) {
      assert ConvAt(cfg, w, i);
    }
  }

  lemma {:induction false} WorkKeepsControl(cfg: Config, liabilities: real, c: Conv, act: Act)
    requires ControlOk(c) && SwapOk(c)
    ensures var c' := Work(cfg, liabilities, c, act); ControlOk(c') && SwapOk(c')
  {
  }

  /** Whatever a worker does, a row that is FILLED or FAILED stays so, and reverts and faults are not forgotten. */
  lemma {:induction false} WorkKeepsEnds(cfg: Config, liabilities: real, c: Conv, act: Act)
    requires ControlOk(c)
    ensures
      var c' := Work(cfg, liabilities, c, act);
      && (c'.row.status == Filled <==> c.row.status == Filled)
      && (c.row.status == Failed ==> c'.row.status == Failed && c'.trail == c.trail)
  {
  }

  lemma {:induction false} WorkKeeps(cfg: Config, liabilities: real, c: Conv, act: Act, reserve: bool, trade: bool,
                                     release: bool)
    requires ValidConfig(cfg) && ConvOk(cfg, c, reserve, trade, release)
    ensures ConvOk(cfg, Work(cfg, liabilities, c, act), reserve, trade, release)
  {
    WorkKeepsControl(cfg, liabilities, c, act);
    WorkKeepsEnds(cfg, liabilities, c, act);
  }

  lemma {:induction false} SettleKeeps(cfg: Config, w: World, id: nat, lost: bool)
    requires ValidConfig(cfg) && Inv(cfg, w)
    ensures Inv(cfg, Settle(w, id, lost))
  {
    if id < |w.convs| && w.convs[id].pc.Settling? {
      var c := w.convs[id];
      assert ConvAt(cfg, w, id);
      var p := TradePosting(c.row, id, c.pc.net, c.pc.feeOverride);
      SoundAfter(w.log, p);
      TradeIsAcceptable(c.row.user, c.row.to, c.pc.net,
                        if c.pc.feeOverride.Some? then c.pc.feeOverride.value else c.row.fee);
      LogStepKeeps(cfg, w, Settle(w, id, lost), id, p);
    }
  }

  /** A transaction that posts for one conversion and rewrites its row. */
  lemma {:induction false} LogStepKeeps(cfg: Config, w: World, w': World, id: nat, p: Posting)
    requires Inv(cfg, w) && id < |w.convs|
    requires p.key == ConvertTrade(id) || p.key == ConvertRelease(id)
    requires w'.quotes == w.quotes && (w'.log == w.log || w'.log == Posted(w.log, p))
    requires |w'.convs| == |w.convs| && forall j | 0 <= j < |w.convs| && j != id :: w'.convs[j] == w.convs[j]
    requires w'.convs[id].row.user == w.convs[id].row.user && w'.convs[id].row.clientId == w.convs[id].row.clientId
    requires w'.convs[id].row.quote == w.convs[id].row.quote
    requires ConvAt(cfg, w', id)
    ensures Inv(cfg, w')
  {
    SoundAfter(w.log, p);
    forall i | 0 <= i < |w'.convs| ensures ConvAt(cfg, w', i) {
      if i != id {
        assert ConvAt(cfg, w, i);
      }
    }
  }

  lemma {:induction false} FailKeeps(cfg: Config, w: World, id: nat)
    requires ValidConfig(cfg) && Inv(cfg, w)
    ensures Inv(cfg, Fail(w, id))
  {
    if id < |w.convs| && w.convs[id].pc.Failing? {
      var c := w.convs[id];
      assert ConvAt(cfg, w, id);
      var p := ReleasePosting(c.row, id);
      SoundAfter(w.log, p);
      ReserveIsAcceptable(c.row.user, c.row.from, c.row.fromAmount);
      LogStepKeeps(cfg, w, Fail(w, id), id, p);
    }
  }

  lemma {:induction false} OtherPostingKeeps(cfg: Config, w: World, e: Event)
    requires Inv(cfg, w) && e.OtherPosting?
    ensures Inv(cfg, Step(cfg, w, e))
  {
    var w' := Step(cfg, w, e);
    SoundAfter(w.log, Posting(OtherKey(e.name), e.entries));
    forall i | 0 <= i < |w'.convs| ensures ConvAt(cfg, w', i) {
      assert ConvAt(cfg, w, i);
    }
  }

  lemma {:induction false} ClaimKeeps(cfg: Config, w: World, id: nat)
    requires Inv(cfg, w)
    ensures Inv(cfg, Step(cfg, w, ClaimEvent(id)))
  {
    if Claimable(w, id) {
      assert ConvAt(cfg, w, id);
      LocalStepKeeps(cfg, w, id, Claim(w, id).convs[id]);
    }
  }

  lemma {:induction false} WorkOnKeeps(cfg: Config, w: World, id: nat, act: Act)
    requires ValidConfig(cfg) && Inv(cfg, w)
    ensures Inv(cfg, WorkOn(cfg, w, id, act))
  {
    if id < |w.convs| {
      assert ConvAt(cfg, w, id);
      var c := w.convs[id];
      WorkKeeps(cfg, Liabilities(w.log, c.row.to), c, act, HasKey(w.log, ConvertReserve(id)),
                HasKey(w.log, ConvertTrade(id)), HasKey(w.log, ConvertRelease(id)));
      LocalStepKeeps(cfg, w, id, Work(cfg, Liabilities(w.log, c.row.to), c, act));
    }
  }

  lemma {:induction false} StepKeeps(cfg: Config, w: World, e: Event)
    requires ValidConfig(cfg) && Inv(cfg, w)
    ensures Inv(cfg, Step(cfg, w, e))
  {
    match e
    case QuoteEvent(_, _, _, _, _, _, _, _, _) => CreateQuoteKeeps(cfg, w, e);
    case ExecuteEvent(_, _, _, _, _) => ExecuteKeeps(cfg, w, e);
    case ClaimEvent(id) => ClaimKeeps(cfg, w, id);
    case WorkEvent(id, act) => WorkOnKeeps(cfg, w, id, act);
    case SettleEvent(id, lost) => SettleKeeps(cfg, w, id, lost);
    case FailEvent(id) => FailKeeps(cfg, w, id);
    case OtherPosting(_, _) => OtherPostingKeeps(cfg, w, e);
  }

  lemma {:induction false} ReplayKeeps(cfg: Config, w: World, events: seq<Event>)
    requires ValidConfig(cfg) && Inv(cfg, w)
    ensures Inv(cfg, Replay(cfg, w, events))
    decreases |events|
  {
    if events != [] {
      StepKeeps(cfg, w, events[0]);
      ReplayKeeps(cfg, Step(cfg, w, events[0]), events[1..]);
    }
  }
}
