/**
 * The synthetic order book: a few cumulative quotes per side are cut into eight price levels a
 * segment, clamped so that prices never improve with depth, and shown with piecewise rounding.
 * Decimal arithmetic is exact here; rounding happens where a number becomes text.
 */
module Orderbook {
  import opened PriceText
  import opened StableSorts

  datatype Side = Ask | Bid

  /** A quote for a cumulative amount. */
  datatype Anchor = Anchor(size: real, total: real)

  datatype Level = Level(price: real, size: real, total: real)

  const SUBDIVISIONS: nat := 8

  function Product(a: real, b: real): real { a * b }

  function Show(level: Level): Level {
    Level(FormatPrice(level.price), Round(level.size, 100000000.0), Round(level.total, 100.0))
  }

  function Display(levels: seq<Level>): seq<Level> {
    seq(|levels|, i requires 0 <= i < |levels| => Show(levels[i]))
  }

  // ----- levels

  function Better(side: Side, a: real, b: real): real {
    match side case Ask => (if a >= b then a else b) case Bid => if a <= b then a else b
  }

  /** The price, made no better than the level before. */
  function Clamped(side: Side, levels: seq<Level>, price: real): real {
    if levels == [] then price else Better(side, price, levels[|levels| - 1].price)
  }

  function Running(levels: seq<Level>): real {
    if levels == [] then 0.0 else levels[|levels| - 1].total
  }

  /** The micro-offset of a level, as a factor on the segment price. */
  function Factor(side: Side, index: nat): real {
    var offset := (index as real - 3.5) * 0.00002;
    if side == Ask then 1.0 + offset else 1.0 - offset
  }

  function Place(side: Side, levels: seq<Level>, raw: real, size: real): seq<Level> {
    var price := Clamped(side, levels, raw);
    levels + [Level(price, size, Running(levels) + Product(size, price))]
  }

  function RawPrice(side: Side, segmentPrice: real, index: nat): real { Product(segmentPrice, Factor(side, index)) }

  function PlaceUpTo(side: Side, levels: seq<Level>, segmentPrice: real, size: real, count: nat): seq<Level> {
    if count == 0 then levels
    else Place(side, PlaceUpTo(side, levels, segmentPrice, size, count - 1), RawPrice(side, segmentPrice, count - 1),
               size)
  }

  function SizeStep(anchors: seq<Anchor>, k: nat): real
    requires k < |anchors|
  {
    anchors[k].size - if k == 0 then 0.0 else anchors[k - 1].size
  }

  function TotalStep(anchors: seq<Anchor>, k: nat): real
    requires k < |anchors|
  {
    anchors[k].total - if k == 0 then 0.0 else anchors[k - 1].total
  }

  predicate Accepted(anchors: seq<Anchor>, k: nat)
    requires k < |anchors|
  {
    SizeStep(anchors, k) > 0.0 && TotalStep(anchors, k) > 0.0
  }

  /** One segment between two anchors, at its average price made no better than the last level. */
  function Segment(side: Side, before: seq<Level>, segmentSize: real, segmentTotal: real): seq<Level>
    requires segmentSize > 0.0
  {
    PlaceUpTo(side, before, Clamped(side, before, segmentTotal / segmentSize), segmentSize / 8.0, SUBDIVISIONS)
  }

  /** The levels of sorted anchors, before rounding. */
  function Expand(side: Side, anchors: seq<Anchor>): seq<Level> {
    if anchors == [] then []
    else
      var k := |anchors| - 1;
      var before := Expand(side, anchors[..k]);
      if !Accepted(anchors, k) then before
      else Segment(side, before, SizeStep(anchors, k), TotalStep(anchors, k))
  }

  function AcceptedSize(anchors: seq<Anchor>): real {
    if anchors == [] then 0.0
    else
      AcceptedSize(anchors[..|anchors| - 1]) +
      if Accepted(anchors, |anchors| - 1) then SizeStep(anchors, |anchors| - 1) else 0.0
  }

  function AcceptedTotal(anchors: seq<Anchor>): real {
    if anchors == [] then 0.0
    else
      AcceptedTotal(anchors[..|anchors| - 1]) +
      if Accepted(anchors, |anchors| - 1) then TotalStep(anchors, |anchors| - 1) else 0.0
  }

  function Sizes(levels: seq<Level>): real {
    if levels == [] then 0.0 else Sizes(levels[..|levels| - 1]) + levels[|levels| - 1].size
  }

  /** `a` is at least as good for the taker as `b`. */
  predicate NoWorse(side: Side, a: real, b: real) {
    if side == Ask then a <= b else a >= b
  }

  /** Positive prices and sizes, prices worsening and totals growing with depth. */
  ghost predicate Book(side: Side, levels: seq<Level>) {
    && (forall i | 0 <= i < |levels| :: levels[i].price > 0.0 && levels[i].size > 0.0 && levels[i].total > 0.0)
    && (forall i, j | 0 <= i < j < |levels| ::
          NoWorse(side, levels[i].price, levels[j].price) && levels[i].total <= levels[j].total)
  }

  lemma {:induction false} Times(a: real, b: real)
    requires a > 0.0 && b > 0.0
    ensures Product(a, b) > 0.0 && a / b > 0.0
  {
  }

  lemma {:induction false} PlaceKeeps(side: Side, levels: seq<Level>, raw: real, size: real)
    requires Book(side, levels) && raw > 0.0 && size > 0.0
    ensures Book(side, Place(side, levels, raw, size))
  {
    var next := Place(side, levels, raw, size);
    Times(size, next[|levels|].price);
    forall i | 0 <= i < |levels|
      ensures NoWorse(side, levels[i].price, next[|levels|].price) && levels[i].total <= next[|levels|].total
    {
      assert i < |levels| - 1 ==> NoWorse(side, levels[i].price, levels[|levels| - 1].price);
    }
  }

  lemma {:induction false} PlaceUpToKeeps(side: Side, levels: seq<Level>, segmentPrice: real, size: real, count: nat)
    requires Book(side, levels) && segmentPrice > 0.0 && size > 0.0 && count <= SUBDIVISIONS
    ensures Book(side, PlaceUpTo(side, levels, segmentPrice, size, count))
  {
    if count > 0 {
      PlaceUpToKeeps(side, levels, segmentPrice, size, count - 1);
      PlaceKeeps(side, PlaceUpTo(side, levels, segmentPrice, size, count - 1), RawPrice(side, segmentPrice, count - 1),
                 size);
    }
  }

  function Repeated(size: real, count: nat): real {
    if count == 0 then 0.0 else Repeated(size, count - 1) + size
  }

  lemma {:induction false} RepeatedIs(size: real, count: nat)
    ensures Repeated(size, count) == size * count as real
  {
    if count > 0 {
      RepeatedIs(size, count - 1);
      assert size * count as real == size * (count - 1) as real + size;
    }
  }

  lemma {:induction false} EightEighths(size: real)
    ensures Repeated(size / 8.0, SUBDIVISIONS) == size
  {
    RepeatedIs(size / 8.0, SUBDIVISIONS);
  }

  lemma {:induction false} PlaceUpToSizes(side: Side, levels: seq<Level>, segmentPrice: real, size: real, count: nat)
    ensures Sizes(PlaceUpTo(side, levels, segmentPrice, size, count)) == Sizes(levels) + Repeated(size, count)
  {
    if count > 0 {
      PlaceUpToSizes(side, levels, segmentPrice, size, count - 1);
    }
  }

  lemma {:induction false} SegmentKeeps(side: Side, before: seq<Level>, segmentSize: real, segmentTotal: real)
    requires Book(side, before) && segmentSize > 0.0 && segmentTotal > 0.0
    ensures var next := Segment(side, before, segmentSize, segmentTotal);
            Book(side, next) && Sizes(next) == Sizes(before) + segmentSize
  {
    Times(segmentTotal, segmentSize);
    var price := Clamped(side, before, segmentTotal / segmentSize);
    PlaceUpToKeeps(side, before, price, segmentSize / 8.0, SUBDIVISIONS);
    PlaceUpToSizes(side, before, price, segmentSize / 8.0, SUBDIVISIONS);
    EightEighths(segmentSize);
  }

  /** Prices only worsen, totals only grow, and the sizes are those of the accepted segments exactly. */
  lemma {:induction false} ExpandIsABook(side: Side, anchors: seq<Anchor>)
    ensures Book(side, Expand(side, anchors))
    ensures Sizes(Expand(side, anchors)) == AcceptedSize(anchors)
    decreases |anchors|
  {
    if anchors != [] {
      var k := |anchors| - 1;
      ExpandIsABook(side, anchors[..k]);
      if Accepted(anchors, k) {
        SegmentKeeps(side, Expand(side, anchors[..k]), SizeStep(anchors, k), TotalStep(anchors, k));
      }
    }
  }

  // ----- conservative totals

  function Factors(side: Side, count: nat): real {
    if count == 0 then 0.0 else Factors(side, count - 1) + Factor(side, count - 1)
  }

  /** The eight micro-offsets cancel. */
  lemma {:induction false} OffsetsCancel(side: Side)
    ensures Factors(side, SUBDIVISIONS) == 8.0
  {
    assert Factors(side, 2) == Factor(side, 0) + Factor(side, 1);
    assert Factors(side, 4) == Factors(side, 2) + Factor(side, 2) + Factor(side, 3);
    assert Factors(side, 6) == Factors(side, 4) + Factor(side, 4) + Factor(side, 5);
    assert Factors(side, 8) == Factors(side, 6) + Factor(side, 6) + Factor(side, 7);
  }

  /** What the first levels of a segment cost at their unclamped prices. */
  function RawCost(side: Side, segmentPrice: real, size: real, count: nat): real {
    if count == 0 then 0.0
    else RawCost(side, segmentPrice, size, count - 1) + Product(size, RawPrice(side, segmentPrice, count - 1))
  }

  lemma {:induction false} RawCostIs(side: Side, segmentPrice: real, size: real, count: nat)
    ensures RawCost(side, segmentPrice, size, count) == Product(Product(size, segmentPrice), Factors(side, count))
  {
    if count > 0 {
      RawCostIs(side, segmentPrice, size, count - 1);
      Distributes(size, segmentPrice, Factors(side, count - 1), Factor(side, count - 1));
    }
  }

  /** Clamping only worsens: the levels cost at least (bring at most) what they would unclamped. */
  lemma {:induction false} LevelsCost(side: Side, levels: seq<Level>, segmentPrice: real, size: real, count: nat)
    requires size > 0.0
    ensures NoWorse(side, Running(levels) + RawCost(side, segmentPrice, size, count),
                    Running(PlaceUpTo(side, levels, segmentPrice, size, count)))
  {
    if count > 0 {
      LevelsCost(side, levels, segmentPrice, size, count - 1);
      LevelCost(side, PlaceUpTo(side, levels, segmentPrice, size, count - 1), RawPrice(side, segmentPrice, count - 1),
                size,
                Running(levels) + RawCost(side, segmentPrice, size, count - 1));
    }
  }

  lemma {:induction false} PlaceCosts(side: Side, before: seq<Level>, raw: real, size: real)
    ensures Running(Place(side, before, raw, size)) == Running(before) + Product(size, Clamped(side, before, raw))
  {
  }

  lemma {:induction false} LevelCost(side: Side, before: seq<Level>, raw: real, size: real, bound: real)
    requires size > 0.0 && NoWorse(side, bound, Running(before))
    ensures NoWorse(side, bound + Product(size, raw), Running(Place(side, before, raw, size)))
  {
    PlaceCosts(side, before, raw, size);
    ClampingWorsens(side, before, raw);
  }

  lemma {:induction false} ClampingWorsens(side: Side, before: seq<Level>, raw: real)
    ensures NoWorse(side, raw, Clamped(side, before, raw))
  {
  }

  lemma {:induction false} Distributes(size: real, price: real, a: real, b: real)
    ensures Product(Product(size, price), a + b) == Product(Product(size, price), a) + Product(size, Product(price, b))
  {
  }

  lemma {:induction false} Eighth(size: real, price: real)
    ensures Product(Product(size / 8.0, price), 8.0) == Product(size, price)
  {
  }

  lemma {:induction false} SegmentCost(side: Side, segmentSize: real, segmentTotal: real, price: real)
    requires segmentSize > 0.0 && NoWorse(side, segmentTotal / segmentSize, price)
    ensures NoWorse(side, segmentTotal, Product(Product(segmentSize / 8.0, price), 8.0))
  {
    Eighth(segmentSize, price);
  }

  lemma {:induction false} SegmentIsConservative(side: Side, before: seq<Level>, segmentSize: real, segmentTotal: real)
    requires segmentSize > 0.0
    ensures NoWorse(side, Running(before) + segmentTotal, Running(Segment(side, before, segmentSize, segmentTotal)))
  {
    var price := Clamped(side, before, segmentTotal / segmentSize);
    LevelsCost(side, before, price, segmentSize / 8.0, SUBDIVISIONS);
    ClampingWorsens(side, before, segmentTotal / segmentSize);
    SegmentCost(side, segmentSize, segmentTotal, price);
    OffsetsCancel(side);
    RawCostIs(side, price, segmentSize / 8.0, SUBDIVISIONS);
  }
}
