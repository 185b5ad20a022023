/**
 * Ladders on which no price is clamped: their totals are those of the accepted segments exactly, so that what a
 * skipped quote takes away from the asks shows.
 */
module SteepLadders {
  import opened AnchorTotals
  import opened Orderbook
  import opened Wrappers

  /** The average price of the last accepted segment. */
  function LastAverage(anchors: seq<Anchor>): Option<real> {
    if anchors == [] then None
    else if Accepted(anchors, |anchors| - 1)
    then Some(TotalStep(anchors, |anchors| - 1) / SizeStep(anchors, |anchors| - 1))
    else LastAverage(anchors[..|anchors| - 1])
  }

  /** Each accepted segment starts no better than the one before it ends. */
  predicate Steep(side: Side, anchors: seq<Anchor>) {
    anchors == [] ||
    var k := |anchors| - 1;
    && Steep(side, anchors[..k])
    && (Accepted(anchors, k) && LastAverage(anchors[..k]).Some? ==>
          NoWorse(side, RawPrice(side, LastAverage(anchors[..k]).value, 7),
                  RawPrice(side, TotalStep(anchors, k) / SizeStep(anchors, k), 0)))
  }

  lemma {:induction false} FactorsWorsen(side: Side, price: real, i: nat, j: nat)
    requires price > 0.0 && i <= j
    ensures NoWorse(side, RawPrice(side, price, i), RawPrice(side, price, j))
  {
  }

  /** The last level, if there is one, is no worse than `raw`. */
  predicate Leaves(side: Side, levels: seq<Level>, raw: real) {
    levels != [] ==> NoWorse(side, levels[|levels| - 1].price, raw)
  }

  predicate EndsAt(levels: seq<Level>, price: real) {
    levels != [] && levels[|levels| - 1].price == price
  }

  lemma {:induction false} UnclampedCost(side: Side, levels: seq<Level>, price: real, size: real, count: nat)
    requires price > 0.0 && Leaves(side, levels, RawPrice(side, price, 0))
    ensures var next := PlaceUpTo(side, levels, price, size, count);
            && Running(next) == Running(levels) + RawCost(side, price, size, count)
            && Leaves(side, next, RawPrice(side, price, count))
            && (count > 0 ==> EndsAt(next, RawPrice(side, price, count - 1)))
  {
    if count > 0 {
      UnclampedCost(side, levels, price, size, count - 1);
      FactorsWorsen(side, price, count - 1, count);
    }
  }

  lemma {:induction false} AverageIsExact(side: Side, segmentSize: real, segmentTotal: real)
    requires segmentSize > 0.0
    ensures RawCost(side, segmentTotal / segmentSize, segmentSize / 8.0, SUBDIVISIONS) == segmentTotal
  {
    var average := segmentTotal / segmentSize;
    RawCostIs(side, average, segmentSize / 8.0, SUBDIVISIONS);
    OffsetsCancel(side);
    SegmentCost(Ask, segmentSize, segmentTotal, average);
    SegmentCost(Bid, segmentSize, segmentTotal, average);
  }

  lemma {:induction false} UnclampedSegment(side: Side, before: seq<Level>, segmentSize: real, segmentTotal: real)
    requires segmentSize > 0.0 && segmentTotal > 0.0
    requires Leaves(side, before, RawPrice(side, segmentTotal / segmentSize, 0))
    ensures var next := Segment(side, before, segmentSize, segmentTotal);
            && Running(next) == Running(before) + segmentTotal
            && EndsAt(next, RawPrice(side, segmentTotal / segmentSize, 7))
  {
    var average := segmentTotal / segmentSize;
    Times(segmentTotal, segmentSize);
    UnclampedCost(side, before, average, segmentSize / 8.0, SUBDIVISIONS);
    AverageIsExact(side, segmentSize, segmentTotal);
  }

  /** On steep anchors the totals are the accepted ones exactly. */
  lemma {:induction false} SteepIsExact(side: Side, anchors: seq<Anchor>)
    requires Steep(side, anchors)
    ensures var levels := Expand(side, anchors);
            && Running(levels) == AcceptedTotal(anchors)
            && (levels != [] <==> LastAverage(anchors).Some?)
            && (levels != [] ==> EndsAt(levels, RawPrice(side, LastAverage(anchors).value, 7)))
    decreases |anchors|
  {
    if anchors != [] {
      var k := |anchors| - 1;
      SteepIsExact(side, anchors[..k]);
      if Accepted(anchors, k) {
        UnclampedSegment(side, Expand(side, anchors[..k]), SizeStep(anchors, k), TotalStep(anchors, k));
      }
    }
  }

  /** There the asks cover the quoted total exactly when no quoted segment was skipped. */
  lemma {:induction false} SteepAsksCover(anchors: seq<Anchor>)
    requires Cumulative(anchors) && Steep(Ask, anchors)
    ensures Running(Expand(Ask, anchors)) >= Quoted(anchors) <==> NothingSkipped(anchors)
  {
    SteepIsExact(Ask, anchors);
    AcceptedIsQuoted(anchors);
  }

  /** A second quote with more total and less size is skipped, and the asks fall short of it. */
  lemma {:induction false} AsksCanFallShort(size: real, total: real, more: real)
    requires 0.0 < size && 0.0 < total < more
    ensures var anchors := [Anchor(size, total), Anchor(size / 2.0, more)];
            Cumulative(anchors) && Running(Expand(Ask, anchors)) == total < Quoted(anchors)
  {
    var anchors := [Anchor(size, total), Anchor(size / 2.0, more)];
    assert anchors[..1] == [Anchor(size, total)];
    assert anchors[..1][..0] == [];
    UnclampedSegment(Ask, [], size, total);
    assert !Accepted(anchors, 1);
    assert Expand(Ask, anchors) == Expand(Ask, anchors[..1]) == Segment(Ask, [], size, total);
  }
}
