/** What each single level of a ladder is: its price, its size and what it adds to the total. */
module LadderLevels {
  import opened AnchorTotals
  import opened Orderbook
  import opened OrderbookLadders
  import opened PriceText

  // ----- levels of a quote

  /** The best price that is no better than `raw` and than the last of the levels. */
  predicate TightAfter(side: Side, levels: seq<Level>, raw: real, price: real) {
    && NoWorse(side, raw, price) && (levels != [] ==> NoWorse(side, levels[|levels| - 1].price, price))
    && (price == raw || (levels != [] && price == levels[|levels| - 1].price))
  }

  /** The level at n: its price is as tight as it can be, its size given, and its cost is added to the total. */
  ghost predicate LevelAt(side: Side, levels: seq<Level>, n: nat, raw: real, size: real) {
    n < |levels| && TightAfter(side, levels[..n], raw, levels[n].price) && levels[n].size == size &&
      levels[n].total == Running(levels[..n]) + Product(size, levels[n].price)
  }

  /** The i-th of eight prices around the average, two hundred-thousandths apart and worsening with depth. */
  function Spread(side: Side, average: real, i: nat): real {
    var step := (2.0 * i as real - 7.0) / 100_000.0;
    Product(average, if side == Ask then 1.0 + step else 1.0 - step)
  }

  /** Eight levels of one size from n on, around an average no better than the quote's and the level before. */
  ghost predicate SegmentAt(side: Side, levels: seq<Level>, n: nat, quoted: real, size: real, average: real) {
    && n + SUBDIVISIONS <= |levels| && TightAfter(side, levels[..n], quoted, average)
    && forall i: nat | i < SUBDIVISIONS :: LevelAt(side, levels, n + i, Spread(side, average, i), size)
  }

  ghost predicate IsSegment(side: Side, levels: seq<Level>, n: nat, quoted: real, size: real) {
    exists average :: SegmentAt(side, levels, n, quoted, size, average)
  }

  lemma {:induction false} PlacedLevels(side: Side, before: seq<Level>, average: real, size: real, count: nat, i: nat)
    requires i < count
    ensures var levels := PlaceUpTo(side, before, average, size, count);
            && |levels| == |before| + count && before <= levels
            && LevelAt(side, levels, |before| + i, Spread(side, average, i), size)
  {
    var levels := PlaceUpTo(side, before, average, size, count);
    var shorter := PlaceUpTo(side, before, average, size, count - 1);
    assert RawPrice(side, average, count - 1) == Spread(side, average, count - 1);
    if count > 1 {
      PlacedLevels(side, before, average, size, count - 1, if i < count - 1 then i else 0);
    }
    assert levels[..|shorter|] == shorter;
    if i < count - 1 {
      assert levels[..|before| + i] == shorter[..|before| + i];
    }
  }

  lemma {:induction false} SegmentIsPlaced(side: Side, before: seq<Level>, segmentSize: real, segmentTotal: real)
    requires segmentSize > 0.0
    ensures var levels := Segment(side, before, segmentSize, segmentTotal);
            && |levels| == |before| + SUBDIVISIONS && before <= levels
            && IsSegment(side, levels, |before|, segmentTotal / segmentSize, segmentSize / 8.0)
  {
    var levels := Segment(side, before, segmentSize, segmentTotal);
    var average := Clamped(side, before, segmentTotal / segmentSize);
    PlacedLevels(side, before, average, segmentSize / 8.0, SUBDIVISIONS, 0);
    assert levels[..|before|] == before;
    forall i: nat | i < SUBDIVISIONS
      ensures LevelAt(side, levels, |before| + i, Spread(side, average, i), segmentSize / 8.0)
    {
      PlacedLevels(side, before, average, segmentSize / 8.0, SUBDIVISIONS, i);
    }
    assert SegmentAt(side, levels, |before|, segmentTotal / segmentSize, segmentSize / 8.0, average);
  }

  lemma {:induction false} SegmentStays(side: Side, levels: seq<Level>, longer: seq<Level>, n: nat, quoted: real,
                                        size: real, average: real)
    requires SegmentAt(side, levels, n, quoted, size, average) && levels <= longer
    ensures SegmentAt(side, longer, n, quoted, size, average)
  {
    assert longer[..n] == levels[..n];
    forall i: nat | i < SUBDIVISIONS ensures LevelAt(side, longer, n + i, Spread(side, average, i), size) {
      assert LevelAt(side, levels, n + i, Spread(side, average, i), size);
      assert longer[..n + i] == levels[..n + i];
    }
  }

  /**
   * A quote that adds size and total makes eight levels of an eighth of its size, at its average price as far as the
   * levels before allow; any other quote makes none.
   */
  lemma {:induction false} LevelsOfAQuote(side: Side, anchors: seq<Anchor>, k: nat)
    requires k < |anchors|
    ensures
      var levels, n := Expand(side, anchors), Depth(side, anchors, k);
      if SizeStep(anchors, k) > 0.0 && TotalStep(anchors, k) > 0.0 then
        && Depth(side, anchors, k + 1) == n + SUBDIVISIONS <= |levels|
        && IsSegment(side, levels, n, TotalStep(anchors, k) / SizeStep(anchors, k), SizeStep(anchors, k) / 8.0)
      else Depth(side, anchors, k + 1) == n
  {
    ExpandNext(side, anchors, k);
    ExpandGrows(side, anchors, k + 1);
    if Accepted(anchors, k) {
      var size, total := SizeStep(anchors, k), TotalStep(anchors, k);
      var before := Expand(side, anchors[..k]);
      SegmentIsPlaced(side, before, size, total);
      var average :| SegmentAt(side, Segment(side, before, size, total), |before|, total / size, size / 8.0, average);
      SegmentStays(side, Segment(side, before, size, total), Expand(side, anchors), |before|, total / size, size / 8.0,
                   average);
    }
  }

  /** What is shown of a level is within half a unit of it: eight digits of size and the cent of the total. */
  lemma {:induction false} ShownIsNear(levels: seq<Level>, i: nat, scale: real)
    requires i < |levels| && Fineness(levels[i].price, scale)
    ensures scale > 0.0 && |Display(levels)| == |levels| &&
            var shown := Display(levels)[i];
            && NearestUnit(shown.price, levels[i].price, scale)
            && NearestUnit(shown.size, levels[i].size, 100_000_000.0)
            && NearestUnit(shown.total, levels[i].total, 100.0)
  {
    FormatIsNearest(levels[i].price, scale);
    RoundIsNearest(levels[i].size, 100_000_000.0);
    RoundIsNearest(levels[i].total, 100.0);
  }

  // ----- the seed

  lemma {:induction false} AroundTheMiddle(mid: real, offset: real, units: real)
    requires 5_760_000.0 * offset == units
    ensures Product(mid, 1.0 + offset) + Product(mid, 1.0 - offset) == 2.0 * mid
    ensures 5_760_000.0 * (Product(mid, 1.0 + offset) - mid) == Product(mid, units)
  {
    assert Product(mid, 5_760_000.0 * offset) == 5_760_000.0 * Product(mid, offset);
  }

  lemma {:induction false} SquareOfPart(d: real)
    ensures 576.0 * ((d / 24.0) * (d / 24.0)) == d * d
  {
  }

  /** The i-th seed prices lie five basis points around the middle, and a part of 45 more that grows as a square. */
  lemma {:induction false} SeedSpread(mid: real, i: nat)
    requires mid > 0.0 && i < SEED_LEVELS
    ensures SeedPrice(Ask, mid, i) + SeedPrice(Bid, mid, i) == 2.0 * mid
    ensures var d := (i + 1) as real;
            5_760_000.0 * (SeedPrice(Ask, mid, i) - mid) == Product(mid, 2880.0 + 45.0 * (d * d))
  {
    var d := (i + 1) as real;
    SquareOfPart(d);
    AroundTheMiddle(mid, SeedOffset(i), 2880.0 + 45.0 * (d * d));
  }

  /** A seed total is what the levels so far cost, 400 at the last. */
  lemma {:induction false} SeedTotals(side: Side, mid: real, i: nat)
    requires mid > 0.0 && i < SEED_LEVELS
    ensures var levels := SeedUpTo(side, mid, SEED_LEVELS);
            && levels[i].total == Running(levels[..i]) + Product(levels[i].size, levels[i].price)
            && levels[SEED_LEVELS - 1].total == 400.0
  {
    SeedLevelIs(side, mid, i);
    var levels := SeedUpTo(side, mid, SEED_LEVELS);
    assert Running(levels[..i]) == i as real * PER_LEVEL;
    assert Product(levels[i].size, levels[i].price) == PER_LEVEL;
  }
}
