/**
 * The terms of a quote, told by the request that made it, and what becomes of them: every conversion carries the
 * terms of its quote, and what it pays and takes as a fee add up to the output quoted or received.
 */
module QuoteTerms {
  import opened Wrappers
  import opened Ledger
  import opened Conversions
  import opened ConversionInvariants

  // ----- making a quote

  /** The fee is the configured part of an output, in units of a hundredth of a percent. */
  predicate IsFee(cfg: Config, gross: real, fee: real) { 10_000.0 * fee == gross * (cfg.feeBps as real) }

  /** A request for a quote that is not refused. */
  predicate Asked(e: Event) {
    e.QuoteEvent? && e.from != e.to && e.fromAmount > 0.0 && e.gross >= 0.0 && e.slippageBps <= 100
  }

  /** The quote repeats the request; expected and fee add up to the output, minimum and fee to it less the slippage. */
  predicate HasTerms(cfg: Config, e: Event, q: Quote)
    requires Asked(e)
  {
    && q.user == e.user && q.from == e.from && q.to == e.to && q.provider == e.provider
    && q.fromAmount == e.fromAmount && q.metadataOk == e.metadataOk && q.expiresAt == e.expiresAt
    && q.expected + q.fee == e.gross && IsFee(cfg, e.gross, q.fee)
    && 10_000.0 * (q.min + q.fee) == e.gross * (10_000 - e.slippageBps) as real
  }

  /** In any state a request is refused, or appends one active quote with its terms; nothing else changes. */
  lemma {:induction false} QuoteIsAsAsked(cfg: Config, w: World, e: Event)
    requires e.QuoteEvent?
    ensures var w' := Step(cfg, w, e);
            && w'.convs == w.convs && w'.log == w.log && w.quotes <= w'.quotes
            && |w'.quotes| == |w.quotes| + (if Asked(e) then 1 else 0)
            && (Asked(e) ==> HasTerms(cfg, e, w'.quotes[|w.quotes|]) && w'.quotes[|w.quotes|].status == Active)
  {
  }

  // ----- what a step does to a conversion

  predicate SameDeal(row: Row, row': Row) {
    && row'.user == row.user && row'.clientId == row.clientId && row'.quote == row.quote && row'.from == row.from
    && row'.to == row.to && row'.provider == row.provider && row'.fromAmount == row.fromAmount
    && row'.expected == row.expected && row'.min == row.min && row'.metadataOk == row.metadataOk
  }

  function FeeOf(c: Conv): real
    requires c.pc.Settling?
  {
    if c.pc.feeOverride.Some? then c.pc.feeOverride.value else c.row.fee
  }

  /** The deal stays; output and fee are written when the row is filled, with what was about to be settled. */
  predicate RowFollows(c: Conv, row': Row) {
    && SameDeal(c.row, row')
    && (row'.status != Filled ==> c.row.status != Filled && row'.fee == c.row.fee)
    && (row'.status == Filled && c.row.status == Filled ==> row'.actual == c.row.actual && row'.fee == c.row.fee)
    && (row'.status == Filled && c.row.status != Filled ==>
          c.pc.Settling? && row'.actual == Some(c.pc.net) && row'.fee == FeeOf(c))
  }

  /** A settlement is prepared from a loaded reserve row or from the receipt that was waited for. */
  predicate PcFollows(cfg: Config, c: Conv, pc': Pc, e: Event, j: nat) {
    pc'.Settling? && pc' != c.pc ==>
      if c.row.provider == InternalReserve then pc'.net == c.row.expected && pc'.feeOverride.None?
      else
        && c.pc == Waiting && e.WorkEvent? && e.id == j && e.act.ReceiptMined? && pc'.feeOverride.Some?
        && pc'.net + pc'.feeOverride.value == e.act.gross && IsFee(cfg, e.act.gross, pc'.feeOverride.value)
  }

  lemma {:induction false} WorkFollows(cfg: Config, liabilities: real, c: Conv, act: Act, j: nat)
    requires ControlOk(c)
    ensures var c' := Work(cfg, liabilities, c, act);
            RowFollows(c, c'.row) && PcFollows(cfg, c, c'.pc, WorkEvent(j, act), j)
  {
  }

  ghost predicate Follows(cfg: Config, c: Conv, c': Conv, e: Event, j: nat) {
    RowFollows(c, c'.row) && PcFollows(cfg, c, c'.pc, e, j)
  }

  /** The event is about the conversion j. */
  predicate About(e: Event, j: nat) {
    match e
    case ClaimEvent(id) => id == j
    case WorkEvent(id, _) => id == j
    case SettleEvent(id, _) => id == j
    case FailEvent(id) => id == j
    case _ => false
  }

  lemma {:induction false} OthersStay(cfg: Config, w: World, e: Event, j: nat)
    requires j < |w.convs| && !About(e, j)
    ensures j < |Step(cfg, w, e).convs| && Step(cfg, w, e).convs[j] == w.convs[j]
  {
  }

  lemma {:induction false} SettleFollows(cfg: Config, w: World, j: nat, lost: bool)
    requires j < |w.convs|
    ensures j < |Settle(w, j, lost).convs|
    ensures Follows(cfg, w.convs[j], Settle(w, j, lost).convs[j], SettleEvent(j, lost), j)
  {
    var c := w.convs[j];
    if c.pc.Settling? {
      var w' := SettleTransaction(w, j, c.pc.net, c.pc.feeOverride);
      assert RowFollows(c, w'.convs[j].row);
      assert Settle(w, j, lost).convs[j].row == w'.convs[j].row;
    }
  }

  lemma {:induction false} FailFollows(cfg: Config, w: World, j: nat)
    requires j < |w.convs|
    ensures j < |Fail(w, j).convs| && Follows(cfg, w.convs[j], Fail(w, j).convs[j], FailEvent(j), j)
  {
  }

  lemma {:induction false} StepFollows(cfg: Config, w: World, e: Event, j: nat)
    requires j < |w.convs| && ControlOk(w.convs[j])
    ensures j < |Step(cfg, w, e).convs| && Follows(cfg, w.convs[j], Step(cfg, w, e).convs[j], e, j)
  {
    if !About(e, j) {
      OthersStay(cfg, w, e, j);
    } else if e.WorkEvent? {
      WorkFollows(cfg, Liabilities(w.log, w.convs[j].row.to), w.convs[j], e.act, j);
    } else if e.SettleEvent? {
      SettleFollows(cfg, w, j, e.lost);
    } else if e.FailEvent? {
      FailFollows(cfg, w, j);
    }
  }

  // ----- execute

  /** What execute asks for: funds and cover, a client id not used before, and a live quote of the user. */
  predicate MayExecute(w: World, e: Event)
    requires e.ExecuteEvent?
  {
    && e.admitted && (forall i | 0 <= i < |w.convs| :: !ByClient(w.convs[i], e.user, e.clientId))
    && e.quoteId < |w.quotes| && w.quotes[e.quoteId].user == e.user && w.quotes[e.quoteId].status == Active
    && w.quotes[e.quoteId].expiresAt > e.now
  }

  /** The row repeats its quote. */
  predicate Carries(row: Row, q: Quote) {
    && row.user == q.user && row.from == q.from && row.to == q.to && row.provider == q.provider
    && row.fromAmount == q.fromAmount && row.expected == q.expected && row.min == q.min
    && row.metadataOk == q.metadataOk
  }

  /** A row nobody has worked on. */
  predicate Untouched(c: Conv, q: Quote) {
    && c.row.status == Pending && c.row.attempts == 0 && c.row.actual.None? && c.row.txHash.None?
    && c.row.fee == q.fee && c.pc == Idle && c.trail.handed == 0 && c.trail.landed == 0
  }

  /** In every run execute makes a row exactly then; it carries its quote, which is consumed, and adds one posting. */
  lemma {:induction false} ExecuteMakesTheRow(cfg: Config, events: seq<Event>, e: Event)
    requires ValidConfig(cfg) && e.ExecuteEvent?
    ensures
      var w := Replay(cfg, EMPTY, events);
      var w' := Step(cfg, w, e);
      if MayExecute(w, e) then
        var q := w.quotes[e.quoteId];
        && w.convs <= w'.convs && |w'.convs| == |w.convs| + 1
        && Carries(w'.convs[|w.convs|].row, q) && Untouched(w'.convs[|w.convs|], q)
        && w'.convs[|w.convs|].row.quote == e.quoteId && w'.convs[|w.convs|].row.clientId == e.clientId
        && w'.quotes == w.quotes[e.quoteId := q.(status := Consumed)]
        && w.log <= w'.log && |w'.log| == |w.log| + 1
      else w' == w
  {
    ReplayKeeps(cfg, EMPTY, events);
    var w := Replay(cfg, EMPTY, events);
    NoKeysBeyond(cfg, w, |w.convs|);
    if MayExecute(w, e) {
      var q := w.quotes[e.quoteId];
      assert QuoteOk(q);
      ReserveIsAcceptable(e.user, q.from, q.fromAmount);
    }
  }

  /**
   * And what it answers: the earlier conversion of the client id, or else the first thing that is wrong, told by
   * the quotes and conversions of the run.
   */
  lemma {:induction false} ExecuteAnswers(cfg: Config, events: seq<Event>, e: Event)
    requires ValidConfig(cfg) && e.ExecuteEvent?
    ensures
      var w := Replay(cfg, EMPTY, events);
      var r := ExecuteRefusal(w, e.user, e.clientId, e.quoteId, e.now, e.admitted);
      var owned := e.quoteId < |w.quotes| && w.quotes[e.quoteId].user == e.user;
      && (r == None <==> MayExecute(w, e))
      && (forall id: nat | id < |w.convs| ::
            r == Some(AlreadyExists(id)) <==> ByClient(w.convs[id], e.user, e.clientId))
      && (r == None || r.value.AlreadyExists? ||
          r.value == if !owned then NotFound
                     else if w.quotes[e.quoteId].status != Active || w.quotes[e.quoteId].expiresAt <= e.now
                       then QuoteExpired
                     else NotAdmitted)
  {
    ExecuteMakesTheRow(cfg, events, e);
    ReplayKeeps(cfg, EMPTY, events);
    var w := Replay(cfg, EMPTY, events);
    NoKeysBeyond(cfg, w, |w.convs|);
    if e.quoteId < |w.quotes| {
      var q := w.quotes[e.quoteId];
      assert QuoteOk(q);
      ReserveIsAcceptable(e.user, q.from, q.fromAmount);
    }
  }

  // ----- quotes over runs

  /** The quote q is the one that the event at i asked for. */
  ghost predicate MadeBy(cfg: Config, events: seq<Event>, q: nat, i: nat) {
    i < |events| && Asked(events[i]) && |Replay(cfg, EMPTY, events[..i]).quotes| == q
  }

  ghost predicate AsAsked(cfg: Config, events: seq<Event>, q: nat, quote: Quote) {
    exists i: nat :: MadeBy(cfg, events, q, i) && HasTerms(cfg, events[i], quote)
  }

  lemma {:induction false} QuoteStays(cfg: Config, w: World, e: Event, q: nat)
    requires q < |w.quotes|
    ensures var w' := Step(cfg, w, e);
            q < |w'.quotes| && w'.quotes[q] == w.quotes[q].(status := w'.quotes[q].status)
  {
  }

  /** Quotes come from requests, conversions from execute. */
  lemma {:induction false} OnlyTheseAdd(cfg: Config, w: World, e: Event)
    ensures |Step(cfg, w, e).quotes| == |w.quotes| + if Asked(e) then 1 else 0
    ensures |Step(cfg, w, e).convs| == |w.convs| || e.ExecuteEvent?
  {
  }

  lemma {:induction false} ReplaySnoc(cfg: Config, events: seq<Event>)
    requires events != []
    ensures var before, e := events[..|events| - 1], events[|events| - 1];
            Replay(cfg, EMPTY, events) == Step(cfg, Replay(cfg, EMPTY, before), e)
  {
    var before, e := events[..|events| - 1], events[|events| - 1];
    assert events == before + [e] && [e][1..] == [];
    ReplayConcat(cfg, EMPTY, before, [e]);
    assert Replay(cfg, Replay(cfg, EMPTY, before), [e]) == Replay(cfg, Step(cfg, Replay(cfg, EMPTY, before), e), []);
  }

  /** In every run each quote has the terms of the request that made it, whatever became of it. */
  lemma {:induction false} QuotesKeepTheirTerms(cfg: Config, events: seq<Event>, q: nat)
    requires q < |Replay(cfg, EMPTY, events).quotes|
    ensures AsAsked(cfg, events, q, Replay(cfg, EMPTY, events).quotes[q])
    decreases |events|
  {
    if events != [] {
      var n := |events| - 1;
      var before, w := events[..n], Replay(cfg, EMPTY, events[..n]);
      ReplaySnoc(cfg, events);
      if q < |w.quotes| {
        QuotesKeepTheirTerms(cfg, before, q);
        QuoteStays(cfg, w, events[n], q);
        var i: nat :| MadeBy(cfg, before, q, i) && HasTerms(cfg, before[i], w.quotes[q]);
        assert before[..i] == events[..i];
        assert MadeBy(cfg, events, q, i) && HasTerms(cfg, events[i], Step(cfg, w, events[n]).quotes[q]);
      } else {
        OnlyTheseAdd(cfg, w, events[n]);
        QuoteIsAsAsked(cfg, w, events[n]);
        assert MadeBy(cfg, events, q, n);
      }
    }
  }

  // ----- conversions over runs

  lemma {:induction false} UnderControl(cfg: Config, events: seq<Event>, j: nat)
    requires ValidConfig(cfg) && j < |Replay(cfg, EMPTY, events).convs|
    ensures ControlOk(Replay(cfg, EMPTY, events).convs[j])
  {
    ReplayKeeps(cfg, EMPTY, events);
    assert ConvAt(cfg, Replay(cfg, EMPTY, events), j);
  }

  /** The row carries its quote; a reserve row settles what the quote expects, for the fee of the quote. */
  ghost predicate DealOk(w: World, j: nat)
    requires j < |w.convs|
  {
    var c := w.convs[j];
    c.row.quote < |w.quotes| &&
    var q := w.quotes[c.row.quote];
    && Carries(c.row, q)
    && (c.row.status != Filled || c.row.provider == InternalReserve ==> c.row.fee == q.fee)
    && (c.row.provider == InternalReserve && c.pc.Settling? ==> c.pc.net == q.expected && c.pc.feeOverride.None?)
    && (c.row.provider == InternalReserve && c.row.status == Filled ==> c.row.actual == Some(q.expected))
  }

  lemma {:induction false} StepKeepsDeal(cfg: Config, w: World, e: Event, j: nat)
    requires j < |w.convs| && ControlOk(w.convs[j]) && DealOk(w, j)
    ensures j < |Step(cfg, w, e).convs| && DealOk(Step(cfg, w, e), j)
  {
    StepFollows(cfg, w, e, j);
    QuoteStays(cfg, w, e, w.convs[j].row.quote);
  }

  /** In every run each conversion carries its quote. */
  lemma {:induction false} RowsKeepTheirDeal(cfg: Config, events: seq<Event>, j: nat)
    requires ValidConfig(cfg) && j < |Replay(cfg, EMPTY, events).convs|
    ensures DealOk(Replay(cfg, EMPTY, events), j)
    decreases |events|
  {
    if events != [] {
      var n := |events| - 1;
      var w := Replay(cfg, EMPTY, events[..n]);
      ReplaySnoc(cfg, events);
      if j < |w.convs| {
        RowsKeepTheirDeal(cfg, events[..n], j);
        UnderControl(cfg, events[..n], j);
        StepKeepsDeal(cfg, w, events[n], j);
      } else {
        OnlyTheseAdd(cfg, w, events[n]);
        ExecuteMakesTheRow(cfg, events[..n], events[n]);
      }
    }
  }

  /** The event at i is a receipt of this output, for a conversion that waits for one. */
  ghost predicate ReceivedAt(cfg: Config, events: seq<Event>, j: nat, gross: real, i: nat) {
    i < |events| && events[i] == WorkEvent(j, ReceiptMined(gross)) &&
    var w := Replay(cfg, EMPTY, events[..i]);
    j < |w.convs| && w.convs[j].pc == Waiting
  }

  ghost predicate IsReceived(cfg: Config, events: seq<Event>, j: nat, gross: real) {
    exists i: nat :: ReceivedAt(cfg, events, j, gross, i)
  }

  ghost predicate Received(cfg: Config, events: seq<Event>, j: nat, net: real, fee: real) {
    IsFee(cfg, net + fee, fee) && IsReceived(cfg, events, j, net + fee)
  }

  /** On 1inch what is settled or paid, with its fee, is the output of a receipt. */
  ghost predicate ReceiptOk(cfg: Config, events: seq<Event>, c: Conv, j: nat) {
    c.row.provider == OneInch ==>
      && (c.pc.Settling? ==> c.pc.feeOverride.Some? && Received(cfg, events, j, c.pc.net, c.pc.feeOverride.value))
      && (c.row.status == Filled ==> c.row.actual.Some? && Received(cfg, events, j, c.row.actual.value, c.row.fee))
  }

  lemma {:induction false} ReceivedStays(cfg: Config, events: seq<Event>, e: Event, j: nat, net: real, fee: real)
    requires Received(cfg, events, j, net, fee)
    ensures Received(cfg, events + [e], j, net, fee)
  {
    var i: nat :| ReceivedAt(cfg, events, j, net + fee, i);
    assert (events + [e])[..i] == events[..i];
    assert ReceivedAt(cfg, events + [e], j, net + fee, i);
  }

  lemma {:induction false} StepKeepsReceipt(cfg: Config, events: seq<Event>, e: Event, j: nat)
    requires ValidConfig(cfg) && j < |Replay(cfg, EMPTY, events).convs|
    requires ReceiptOk(cfg, events, Replay(cfg, EMPTY, events).convs[j], j)
    ensures var w' := Step(cfg, Replay(cfg, EMPTY, events), e);
            j < |w'.convs| && ReceiptOk(cfg, events + [e], w'.convs[j], j)
  {
    var w := Replay(cfg, EMPTY, events);
    UnderControl(cfg, events, j);
    StepFollows(cfg, w, e, j);
    var c, c' := w.convs[j], Step(cfg, w, e).convs[j];
    if c.row.provider == OneInch {
      if c.pc.Settling? {
        ReceivedStays(cfg, events, e, j, c.pc.net, c.pc.feeOverride.value);
      }
      if c.row.status == Filled {
        ReceivedStays(cfg, events, e, j, c.row.actual.value, c.row.fee);
      }
      if c'.pc.Settling? && c'.pc != c.pc {
        assert (events + [e])[..|events|] == events;
        assert ReceivedAt(cfg, events + [e], j, c'.pc.net + c'.pc.feeOverride.value, |events|);
      }
    }
  }

  lemma {:induction false} ReceiptsAreKept(cfg: Config, events: seq<Event>, j: nat)
    requires ValidConfig(cfg) && j < |Replay(cfg, EMPTY, events).convs|
    ensures ReceiptOk(cfg, events, Replay(cfg, EMPTY, events).convs[j], j)
    decreases |events|
  {
    if events != [] {
      var n := |events| - 1;
      var w := Replay(cfg, EMPTY, events[..n]);
      ReplaySnoc(cfg, events);
      assert events == events[..n] + [events[n]];
      if j < |w.convs| {
        ReceiptsAreKept(cfg, events[..n], j);
        StepKeepsReceipt(cfg, events[..n], events[n], j);
      } else {
        OnlyTheseAdd(cfg, w, events[n]);
        ExecuteMakesTheRow(cfg, events[..n], events[n]);
      }
    }
  }

  /**
   * In every run a FILLED row has paid out, with its fee, exactly the output its quote asked for on the reserve, and
   * exactly the output of a receipt it waited for on 1inch; the fee is the configured part of it.
   */
  lemma {:induction false} FilledPaysTheOutput(cfg: Config, events: seq<Event>, j: nat)
    requires ValidConfig(cfg) && j < |Replay(cfg, EMPTY, events).convs|
    requires Replay(cfg, EMPTY, events).convs[j].row.status == Filled
    ensures
      var row := Replay(cfg, EMPTY, events).convs[j].row;
      row.actual.Some? &&
      var gross := row.actual.value + row.fee;
      && IsFee(cfg, gross, row.fee)
      && (row.provider == InternalReserve ==>
            exists i: nat :: MadeBy(cfg, events, row.quote, i) && events[i].gross == gross &&
              events[i].user == row.user && events[i].from == row.from && events[i].to == row.to &&
              events[i].fromAmount == row.fromAmount)
      && (row.provider == OneInch ==> IsReceived(cfg, events, j, gross))
  {
    var w := Replay(cfg, EMPTY, events);
    RowsKeepTheirDeal(cfg, events, j);
    ReceiptsAreKept(cfg, events, j);
    QuotesKeepTheirTerms(cfg, events, w.convs[j].row.quote);
  }
}
