/**
 * The totals of a ladder against the cumulative totals that were quoted: at its end, and where each quote ends.
 */
module AnchorTotals {
  import opened Orderbook

  /**
   * The running cost of the asks is at least, the proceeds of the bids at most, what was quoted for the
   * accepted segments.
   */
  lemma {:induction false} ExpandIsConservative(side: Side, anchors: seq<Anchor>)
    ensures NoWorse(side, AcceptedTotal(anchors), Running(Expand(side, anchors)))
    decreases |anchors|
  {
    if anchors != [] {
      var k := |anchors| - 1;
      ExpandIsConservative(side, anchors[..k]);
      if Accepted(anchors, k) {
        SegmentIsConservative(side, Expand(side, anchors[..k]), SizeStep(anchors, k), TotalStep(anchors, k));
      }
    }
  }

  /** The quoted cumulative total at the last anchor. */
  function Quoted(anchors: seq<Anchor>): real {
    if anchors == [] then 0.0 else anchors[|anchors| - 1].total
  }

  ghost predicate Cumulative(anchors: seq<Anchor>) {
    && (forall i | 0 <= i < |anchors| :: anchors[i].total >= 0.0)
    && (forall i, j | 0 <= i < j < |anchors| :: anchors[i].total <= anchors[j].total)
  }

  /** No segment with a quoted amount is left out. */
  ghost predicate NothingSkipped(anchors: seq<Anchor>) {
    forall k: nat | k < |anchors| :: TotalStep(anchors, k) > 0.0 ==> SizeStep(anchors, k) > 0.0
  }

  lemma {:induction false} StepsOfAPrefix(anchors: seq<Anchor>)
    requires anchors != []
    ensures NothingSkipped(anchors) <==>
            && NothingSkipped(anchors[..|anchors| - 1])
            && (TotalStep(anchors, |anchors| - 1) > 0.0 ==> SizeStep(anchors, |anchors| - 1) > 0.0)
  {
    var shorter := anchors[..|anchors| - 1];
    assert forall i: nat | i < |shorter| ::
             TotalStep(anchors, i) == TotalStep(shorter, i) && SizeStep(anchors, i) == SizeStep(shorter, i);
  }

  lemma {:induction false} AcceptedIsQuoted(anchors: seq<Anchor>)
    requires Cumulative(anchors)
    ensures AcceptedTotal(anchors) <= Quoted(anchors)
    ensures AcceptedTotal(anchors) == Quoted(anchors) <==> NothingSkipped(anchors)
    decreases |anchors|
  {
    if anchors != [] {
      var k := |anchors| - 1;
      AcceptedIsQuoted(anchors[..k]);
      StepsOfAPrefix(anchors);
      assert TotalStep(anchors, k) == Quoted(anchors) - Quoted(anchors[..k]) >= 0.0;
    }
  }

  /** The asks cost at least, the bids bring at most, the cumulative total that was quoted. */
  lemma {:induction false} BidsNeverPromiseMore(anchors: seq<Anchor>)
    requires Cumulative(anchors)
    ensures Running(Expand(Bid, anchors)) <= Quoted(anchors)
  {
    ExpandIsConservative(Bid, anchors);
    AcceptedIsQuoted(anchors);
  }

  lemma {:induction false} AsksCoverWhatIsNotSkipped(anchors: seq<Anchor>)
    requires Cumulative(anchors) && NothingSkipped(anchors)
    ensures Running(Expand(Ask, anchors)) >= Quoted(anchors)
  {
    ExpandIsConservative(Ask, anchors);
    AcceptedIsQuoted(anchors);
  }

  // ----- at every anchor

  lemma {:induction false} PlaceUpToExtends(side: Side, levels: seq<Level>, segmentPrice: real, size: real, count: nat)
    ensures levels <= PlaceUpTo(side, levels, segmentPrice, size, count)
  {
    if count > 0 {
      PlaceUpToExtends(side, levels, segmentPrice, size, count - 1);
    }
  }

  /** The levels of the first anchors are the first levels. */
  lemma {:induction false} ExpandGrows(side: Side, anchors: seq<Anchor>, k: nat)
    requires k <= |anchors|
    ensures Expand(side, anchors[..k]) <= Expand(side, anchors)
    decreases |anchors|
  {
    if k == |anchors| {
      assert anchors[..k] == anchors;
    } else {
      var n := |anchors| - 1;
      ExpandGrows(side, anchors[..n], k);
      assert anchors[..n][..k] == anchors[..k];
      if Accepted(anchors, n) {
        var before := Expand(side, anchors[..n]);
        var price := Clamped(side, before, TotalStep(anchors, n) / SizeStep(anchors, n));
        PlaceUpToExtends(side, before, price, SizeStep(anchors, n) / 8.0, SUBDIVISIONS);
      }
    }
  }

  /** How many levels lie up to the k-th anchor. */
  function Depth(side: Side, anchors: seq<Anchor>, k: nat): nat
    requires k <= |anchors|
  {
    |Expand(side, anchors[..k])|
  }

  /** At every anchor the bids so far bring at most what was quoted there. */
  lemma {:induction false} BidsAtEveryAnchor(anchors: seq<Anchor>, k: nat)
    requires Cumulative(anchors) && 0 < k <= |anchors|
    ensures var levels, n := Expand(Bid, anchors), Depth(Bid, anchors, k);
            n <= |levels| && Running(levels[..n]) <= anchors[k - 1].total
  {
    ExpandGrows(Bid, anchors, k);
    BidsNeverPromiseMore(anchors[..k]);
  }

  /** And the asks so far cost at least that, if nothing was skipped up to it. */
  lemma {:induction false} AsksAtEveryAnchor(anchors: seq<Anchor>, k: nat)
    requires Cumulative(anchors) && 0 < k <= |anchors| && NothingSkipped(anchors[..k])
    ensures var levels, n := Expand(Ask, anchors), Depth(Ask, anchors, k);
            n <= |levels| && Running(levels[..n]) >= anchors[k - 1].total
  {
    ExpandGrows(Ask, anchors, k);
    AsksCoverWhatIsNotSkipped(anchors[..k]);
  }
}
