/**
 * The three ladders the service shows: expanded quotes, the reference seed, and either of them
 * rescaled to a live price.
 */
module OrderbookLadders {
  import opened AnchorTotals
  import opened Orderbook
  import opened PriceText
  import opened StableSorts

  /** Shown levels: prices do not improve with depth and totals do not shrink. */
  ghost predicate ShownInOrder(side: Side, shown: seq<Level>) {
    && (forall i | 0 <= i < |shown| :: shown[i].price >= 0.0)
    && (forall i, j | 0 <= i < j < |shown| ::
        NoWorse(side, shown[i].price, shown[j].price) && shown[i].total <= shown[j].total)
  }

  function TotalOf(anchor: Anchor): real { anchor.total }

  /** Quotes as the provider gives them. */
  predicate NonNegativeTotals(anchors: seq<Anchor>) {
    forall i | 0 <= i < |anchors| :: anchors[i].total >= 0.0
  }

  function Sorted(anchors: seq<Anchor>): seq<Anchor> { StableSort(anchors, TotalOf) }

  function AskKey(level: Level): real { level.price }

  function BidKey(level: Level): real { -level.price }

  function SortLevels(side: Side, shown: seq<Level>): seq<Level> {
    if side == Ask then StableSort(shown, AskKey) else StableSort(shown, BidKey)
  }

  lemma {:induction false} ShowKeepsOrder(side: Side, a: Level, b: Level)
    requires a.price > 0.0 && b.price > 0.0 && a.total > 0.0 && NoWorse(side, a.price, b.price) && a.total <= b.total
    ensures Show(a).price >= 0.0 && NoWorse(side, Show(a).price, Show(b).price) && Show(a).total <= Show(b).total
  {
    if side == Ask {
      FormatIsMonotone(a.price, b.price);
    } else {
      FormatIsMonotone(b.price, a.price);
    }
    RoundIsMonotone(a.total, b.total, 100.0);
  }

  lemma {:induction false} DisplayIsInOrder(side: Side, levels: seq<Level>)
    requires Book(side, levels)
    ensures ShownInOrder(side, Display(levels))
  {
    var shown := Display(levels);
    forall i | 0 <= i < |shown| ensures shown[i].price >= 0.0 {
      ShowKeepsOrder(side, levels[i], levels[i]);
    }
    forall i, j | 0 <= i < j < |shown|
      ensures NoWorse(side, shown[i].price, shown[j].price) && shown[i].total <= shown[j].total
    {
      ShowKeepsOrder(side, levels[i], levels[j]);
    }
  }

  /** The last sort of an expansion moves nothing, because rounding keeps the order. */
  lemma {:induction false} LastSortMovesNothing(side: Side, anchors: seq<Anchor>)
    ensures ShownInOrder(side, Display(Expand(side, anchors)))
    ensures SortLevels(side, Display(Expand(side, anchors))) == Display(Expand(side, anchors))
  {
    ExpandIsABook(side, anchors);
    DisplayIsInOrder(side, Expand(side, anchors));
    if side == Ask {
      SortedStays(Display(Expand(side, anchors)), AskKey);
    } else {
      SortedStays(Display(Expand(side, anchors)), BidKey);
    }
  }

  lemma {:induction false} SortedAnchorsAreCumulative(anchors: seq<Anchor>)
    requires NonNegativeTotals(anchors)
    ensures Cumulative(Sorted(anchors))
  {
    var sorted := Sorted(anchors);
    SortSorts(anchors, TotalOf);
    SortPermutes(anchors, TotalOf);
    forall i | 0 <= i < |sorted| ensures sorted[i].total >= 0.0 {
      assert sorted[i] in multiset(sorted);
      var j :| 0 <= j < |anchors| && anchors[j] == sorted[i];
    }
    forall i, j | 0 <= i < j < |sorted| ensures sorted[i].total <= sorted[j].total {
      assert TotalOf(sorted[i]) <= TotalOf(sorted[j]);
    }
  }

  /** The largest cumulative total that was quoted: the one the sorted quotes end with. */
  lemma {:induction false} QuotedIsTheLargest(anchors: seq<Anchor>)
    requires anchors != []
    ensures exists i :: 0 <= i < |anchors| && anchors[i].total == Quoted(Sorted(anchors))
    ensures forall i | 0 <= i < |anchors| :: anchors[i].total <= Quoted(Sorted(anchors))
  {
    var sorted := Sorted(anchors);
    SortSorts(anchors, TotalOf);
    SortPermutes(anchors, TotalOf);
    assert |sorted| == |multiset(sorted)| == |multiset(anchors)| == |anchors|;
    var last := sorted[|sorted| - 1];
    assert last in multiset(sorted);
    var i :| 0 <= i < |anchors| && anchors[i] == last;
    forall j | 0 <= j < |anchors| ensures anchors[j].total <= last.total {
      assert anchors[j] in multiset(sorted);
      var p :| 0 <= p < |sorted| && sorted[p] == anchors[j];
      assert TotalOf(sorted[p]) <= TotalOf(last);
    }
  }

  /**
   * The ladder computed from quotes in any order: the bids bring at most one of the quoted totals, and the asks
   * cost at least every one of them if no quoted segment was skipped.
   */
  lemma {:induction false} LadderIsConservative(anchors: seq<Anchor>)
    requires NonNegativeTotals(anchors) && anchors != []
    ensures exists i :: 0 <= i < |anchors| && Running(Expand(Bid, Sorted(anchors))) <= anchors[i].total
    ensures NothingSkipped(Sorted(anchors)) ==>
              forall i | 0 <= i < |anchors| :: Running(Expand(Ask, Sorted(anchors))) >= anchors[i].total
  {
    SortedAnchorsAreCumulative(anchors);
    QuotedIsTheLargest(anchors);
    BidsNeverPromiseMore(Sorted(anchors));
    if NothingSkipped(Sorted(anchors)) {
      AsksCoverWhatIsNotSkipped(Sorted(anchors));
    }
  }

  /** The total shown where the k-th quote ends compares with that quote, rounded like it. */
  ghost predicate ShownAt(side: Side, sorted: seq<Anchor>, shown: seq<Level>, k: nat)
    requires 0 < k <= |sorted|
  {
    var n := Depth(side, sorted, k);
    && n <= |shown|
    && (n > 0 ==>
          var total, quoted := shown[n - 1].total, Round(sorted[k - 1].total, 100.0);
          && (side == Bid ==> total <= quoted)
          && (side == Ask && NothingSkipped(sorted[..k]) ==> total >= quoted))
  }

  ghost predicate ShownAtEvery(side: Side, sorted: seq<Anchor>, shown: seq<Level>) {
    forall k: nat | 0 < k <= |sorted| :: ShownAt(side, sorted, shown, k)
  }

  lemma {:induction false} ShownTotalCompares(total: real, quoted: real)
    requires total >= 0.0 && quoted >= 0.0
    ensures total <= quoted ==> Round(total, 100.0) <= Round(quoted, 100.0)
    ensures total >= quoted ==> Round(total, 100.0) >= Round(quoted, 100.0)
  {
    if total <= quoted {
      RoundIsMonotone(total, quoted, 100.0);
    }
    if total >= quoted {
      RoundIsMonotone(quoted, total, 100.0);
    }
  }

  /** How the unrounded totals compare where the k-th quote ends. */
  ghost predicate TotalsCompare(side: Side, sorted: seq<Anchor>, k: nat, total: real)
    requires 0 < k <= |sorted|
  {
    && (side == Bid ==> total <= sorted[k - 1].total)
    && (side == Ask && NothingSkipped(sorted[..k]) ==> total >= sorted[k - 1].total)
  }

  lemma {:induction false} TotalsAtQuote(side: Side, sorted: seq<Anchor>, k: nat)
    requires Cumulative(sorted) && 0 < k <= |sorted|
    ensures var levels, n := Expand(side, sorted), Depth(side, sorted, k);
            n <= |levels| && TotalsCompare(side, sorted, k, Running(levels[..n]))
  {
    if side == Bid {
      BidsAtEveryAnchor(sorted, k);
    } else {
      ExpandGrows(side, sorted, k);
      if NothingSkipped(sorted[..k]) {
        AsksAtEveryAnchor(sorted, k);
      }
    }
  }

  lemma {:induction false} ShownAtQuote(side: Side, sorted: seq<Anchor>, levels: seq<Level>, k: nat)
    requires Book(side, levels) && 0 < k <= |sorted| && sorted[k - 1].total >= 0.0
    requires var n := Depth(side, sorted, k); n <= |levels| && TotalsCompare(side, sorted, k, Running(levels[..n]))
    ensures ShownAt(side, sorted, Display(levels), k)
  {
    var n := Depth(side, sorted, k);
    if n > 0 {
      ShownTotalCompares(levels[n - 1].total, sorted[k - 1].total);
    }
  }

  /** So the totals shown are conservative at every quote. */
  lemma {:induction false} ShownTotalsAreConservative(anchors: seq<Anchor>, side: Side)
    requires NonNegativeTotals(anchors)
    ensures ShownAtEvery(side, Sorted(anchors), Display(Expand(side, Sorted(anchors))))
  {
    var sorted := Sorted(anchors);
    SortedAnchorsAreCumulative(anchors);
    ExpandIsABook(side, sorted);
    forall k: nat | 0 < k <= |sorted| ensures ShownAt(side, sorted, Display(Expand(side, sorted)), k) {
      TotalsAtQuote(side, sorted, k);
      ShownAtQuote(side, sorted, Expand(side, sorted), k);
    }
  }

  lemma {:induction false} DisplaySnoc(levels: seq<Level>, level: Level)
    ensures Display(levels + [level]) == Display(levels) + [Show(level)]
  {
  }

  lemma {:induction false} ExpandNext(side: Side, anchors: seq<Anchor>, k: nat)
    requires k < |anchors|
    ensures var before := Expand(side, anchors[..k]);
            Expand(side, anchors[..k + 1]) ==
            if Accepted(anchors, k) then Segment(side, before, SizeStep(anchors, k), TotalStep(anchors, k)) else before
  {
    var upto := anchors[..k + 1];
    assert upto[..k] == anchors[..k];
    assert SizeStep(upto, k) == SizeStep(anchors, k) && TotalStep(upto, k) == TotalStep(anchors, k);
  }

  /** The quoted ladder of one side. */
  method ExpandCumulativeAnchors(anchors: seq<Anchor>, side: Side) returns (result: seq<Level>)
    ensures result == Display(Expand(side, Sorted(anchors)))
    ensures ShownInOrder(side, result)
    ensures NonNegativeTotals(anchors) ==> ShownAtEvery(side, Sorted(anchors), result)
  {
    var sorted := Sorted(anchors);
    result := [];
    var previousSize, previousTotal, runningTotal := 0.0, 0.0, 0.0;
    var lastPrice: real := 0.0;
    ghost var levels: seq<Level> := [];
    for k := 0 to |sorted|
      invariant levels == Expand(side, sorted[..k]) && result == Display(levels)
      invariant previousSize == (if k == 0 then 0.0 else sorted[k - 1].size)
      invariant previousTotal == (if k == 0 then 0.0 else sorted[k - 1].total)
      invariant runningTotal == Running(levels)
      invariant levels != [] ==> lastPrice == levels[|levels| - 1].price
    {
      var segmentSize, segmentTotal := sorted[k].size - previousSize, sorted[k].total - previousTotal;
      previousSize, previousTotal := sorted[k].size, sorted[k].total;
      ExpandNext(side, sorted, k);
      assert SizeStep(sorted, k) == segmentSize && TotalStep(sorted, k) == segmentTotal;
      if segmentSize > 0.0 && segmentTotal > 0.0 {
        var segmentPrice := segmentTotal / segmentSize;
        if result != [] {
          segmentPrice := Better(side, segmentPrice, lastPrice);
        }
        result, runningTotal, lastPrice, levels :=
          PlaceSegment(side, levels, result, runningTotal, lastPrice, segmentPrice, segmentSize / 8.0);
      }
    }
    assert sorted[..|sorted|] == sorted;
    LastSortMovesNothing(side, sorted);
    result := SortLevels(side, result);
    if NonNegativeTotals(anchors) {
      ShownTotalsAreConservative(anchors, side);
    }
  }

  /** The eight levels of one segment. */
  method PlaceSegment(side: Side, ghost before: seq<Level>, shown: seq<Level>, running: real, last: real,
                      segmentPrice: real, size: real)
    returns (result: seq<Level>, runningTotal: real, lastPrice: real, ghost levels: seq<Level>)
    requires shown == Display(before) && running == Running(before)
    requires before != [] ==> last == before[|before| - 1].price
    ensures levels == PlaceUpTo(side, before, segmentPrice, size, SUBDIVISIONS)
    ensures result == Display(levels) && runningTotal == Running(levels)
    ensures levels != [] && lastPrice == levels[|levels| - 1].price
  {
    result, runningTotal, lastPrice, levels := shown, running, last, before;
    for index := 0 to SUBDIVISIONS
      invariant levels == PlaceUpTo(side, before, segmentPrice, size, index)
      invariant result == Display(levels) && runningTotal == Running(levels)
      invariant levels != [] ==> lastPrice == levels[|levels| - 1].price
      invariant index > 0 ==> levels != []
    {
      var price := RawPrice(side, segmentPrice, index);
      if result != [] {
        price := Better(side, price, lastPrice);
      }
      runningTotal := runningTotal + Product(size, price);
      DisplaySnoc(levels, Level(price, size, runningTotal));
      levels := levels + [Level(price, size, runningTotal)];
      result := result + [Show(Level(price, size, runningTotal))];
      lastPrice := price;
    }
  }

  // ----- rescaling to a live price

  /** Prices times the scale, sizes as they are, totals accumulated again. */
  function Rescaled(levels: seq<Level>, scale: real): seq<Level> {
    if levels == [] then []
    else
      var before, level := Rescaled(levels[..|levels| - 1], scale), levels[|levels| - 1];
      var price := Product(level.price, scale);
      before + [Level(price, level.size, Running(before) + Product(price, level.size))]
  }

  function ShowRescaled(level: Level): Level {
    Level(FormatPrice(level.price), level.size, Round(level.total, 100.0))
  }

  function DisplayRescaled(levels: seq<Level>): seq<Level> {
    seq(|levels|, i requires 0 <= i < |levels| => ShowRescaled(levels[i]))
  }

  method ScaleLevels(levels: seq<Level>, scale: real) returns (shown: seq<Level>)
    ensures shown == DisplayRescaled(Rescaled(levels, scale))
  {
    shown := [];
    var runningTotal := 0.0;
    ghost var rescaled: seq<Level> := [];
    for i := 0 to |levels|
      invariant rescaled == Rescaled(levels[..i], scale)
      invariant shown == DisplayRescaled(rescaled) && runningTotal == Running(rescaled)
    {
      var price, size := Product(levels[i].price, scale), levels[i].size;
      runningTotal := runningTotal + Product(price, size);
      assert levels[..i + 1][..|levels[..i + 1]| - 1] == levels[..i];
      rescaled := rescaled + [Level(price, size, runningTotal)];
      shown := shown + [ShowRescaled(Level(price, size, runningTotal))];
    }
    assert levels[..|levels|] == levels;
  }

  lemma {:induction false} NonNegative(a: real, b: real)
    requires a >= 0.0 && b >= 0.0
    ensures a * b >= 0.0
  {
  }

  /** What a ladder taken from text guarantees: no negative number. */
  ghost predicate FromText(levels: seq<Level>) {
    forall i | 0 <= i < |levels| :: levels[i].price >= 0.0 && levels[i].size >= 0.0
  }

  lemma {:induction false} RescaledAt(levels: seq<Level>, scale: real, i: nat)
    requires i < |levels|
    ensures var rescaled := Rescaled(levels, scale);
            |rescaled| == |levels| && rescaled[i].price == Product(levels[i].price, scale) &&
              rescaled[i].size == levels[i].size &&
              rescaled[i].total == Running(rescaled[..i]) + Product(rescaled[i].price, rescaled[i].size)
    decreases |levels|
  {
    var n := |levels| - 1;
    if i < n {
      RescaledAt(levels[..n], scale, i);
      assert Rescaled(levels, scale)[..i] == Rescaled(levels[..n], scale)[..i];
    } else if n > 0 {
      RescaledAt(levels[..n], scale, 0);
      assert Rescaled(levels, scale)[..i] == Rescaled(levels[..n], scale);
    }
  }

  lemma {:induction false} RescaledTotals(levels: seq<Level>, scale: real)
    requires scale > 0.0 && FromText(levels)
    ensures var rescaled := Rescaled(levels, scale);
            && |rescaled| == |levels| && Running(rescaled) >= 0.0
            && (forall i | 0 <= i < |levels| :: 0.0 <= rescaled[i].total <= Running(rescaled))
            && (forall i, j | 0 <= i < j < |levels| :: rescaled[i].total <= rescaled[j].total)
    decreases |levels|
  {
    if levels != [] {
      var n := |levels| - 1;
      RescaledTotals(levels[..n], scale);
      NonNegative(levels[n].price, scale);
      NonNegative(Product(levels[n].price, scale), levels[n].size);
    }
  }

  lemma {:induction false} ScaledOrder(side: Side, a: real, b: real, scale: real)
    requires a >= 0.0 && b >= 0.0 && scale > 0.0 && NoWorse(side, a, b)
    ensures FormatPrice(Product(a, scale)) >= 0.0
    ensures NoWorse(side, FormatPrice(Product(a, scale)), FormatPrice(Product(b, scale)))
  {
    NonNegative(a, scale);
    NonNegative(b, scale);
    if side == Ask {
      FormatIsMonotone(Product(a, scale), Product(b, scale));
    } else {
      FormatIsMonotone(Product(b, scale), Product(a, scale));
    }
  }

  lemma {:induction false} RescaledPrices(side: Side, shown: seq<Level>, scale: real, i: nat, j: nat)
    requires scale > 0.0 && i <= j < |shown| && FromText(shown) && NoWorse(side, shown[i].price, shown[j].price)
    ensures var live := DisplayRescaled(Rescaled(shown, scale));
            && |live| == |shown| && live[i].size == shown[i].size
            && live[i].price >= 0.0 && NoWorse(side, live[i].price, live[j].price)
  {
    RescaledAt(shown, scale, i);
    RescaledAt(shown, scale, j);
    ScaledOrder(side, shown[i].price, shown[j].price, scale);
  }

  lemma {:induction false} ShownTotals(shown: seq<Level>, scale: real, i: nat, j: nat)
    requires scale > 0.0 && i < j < |shown| && FromText(shown)
    ensures var live := DisplayRescaled(Rescaled(shown, scale));
            |live| == |shown| && live[i].total <= live[j].total
  {
    RescaledTotals(shown, scale);
    RoundIsMonotone(Rescaled(shown, scale)[i].total, Rescaled(shown, scale)[j].total, 100.0);
  }

  /** Rescaling keeps a shown ladder in order, level by level, with its sizes. */
  lemma {:induction false} RescalingKeepsOrder(side: Side, shown: seq<Level>, scale: real)
    requires scale > 0.0 && ShownInOrder(side, shown) && FromText(shown)
    ensures var live := DisplayRescaled(Rescaled(shown, scale));
            && ShownInOrder(side, live) && |live| == |shown|
            && forall i | 0 <= i < |shown| :: live[i].size == shown[i].size
  {
    var live := DisplayRescaled(Rescaled(shown, scale));
    RescaledTotals(shown, scale);
    forall i: nat | i < |shown| ensures live[i].price >= 0.0 && live[i].size == shown[i].size {
      RescaledPrices(side, shown, scale, i, i);
    }
    forall i: nat, j: nat | i < j < |shown|
      ensures NoWorse(side, live[i].price, live[j].price) && live[i].total <= live[j].total
    {
      RescaledPrices(side, shown, scale, i, j);
      ShownTotals(shown, scale, i, j);
    }
  }

  lemma {:induction false} FirstRescaled(levels: seq<Level>, scale: real)
    requires levels != []
    ensures var live := DisplayRescaled(Rescaled(levels, scale));
            live != [] && live[0].price == FormatPrice(Product(levels[0].price, scale))
  {
    RescaledAt(levels, scale, 0);
  }

  /** A book whose best bid is not above its best ask stays that way at every scale. */
  lemma {:induction false} RescalingDoesNotCross(bids: seq<Level>, asks: seq<Level>, scale: real)
    requires scale > 0.0 && bids != [] && asks != [] && FromText(bids) && FromText(asks)
    requires bids[0].price <= asks[0].price
    ensures var liveBids, liveAsks := DisplayRescaled(Rescaled(bids, scale)), DisplayRescaled(Rescaled(asks, scale));
            liveBids != [] && liveAsks != [] && liveBids[0].price <= liveAsks[0].price
  {
    FirstRescaled(bids, scale);
    FirstRescaled(asks, scale);
    ScaledOrder(Ask, bids[0].price, asks[0].price, scale);
  }

  // ----- the reference seed

  const SEED_LEVELS: nat := 24

  const PER_LEVEL: real := 400.0 / 24.0

  /** The offset of a seed level from the middle, as a fraction. */
  function SeedOffset(index: nat): real {
    var depth := (index + 1) as real / 24.0;
    (5.0 + 45.0 * (depth * depth)) / 10000.0
  }

  function SeedPrice(side: Side, mid: real, index: nat): real {
    Product(mid, if side == Ask then 1.0 + SeedOffset(index) else 1.0 - SeedOffset(index))
  }

  lemma {:induction false} SeedOffsetsGrow(i: nat, j: nat)
    requires i <= j < SEED_LEVELS
    ensures 0.0 < SeedOffset(i) <= SeedOffset(j) < 1.0
  {
    var a, b := (i + 1) as real / 24.0, (j + 1) as real / 24.0;
    Squares(a, b);
    Squares(b, 1.0);
  }

  lemma {:induction false} Squares(a: real, b: real)
    requires 0.0 <= a <= b
    ensures 0.0 <= a * a <= b * b
  {
  }

  lemma {:induction false} SeedPriceIsPositive(side: Side, mid: real, index: nat)
    requires mid > 0.0 && index < SEED_LEVELS
    ensures SeedPrice(side, mid, index) > 0.0
  {
    SeedOffsetsGrow(index, index);
    Times(mid, if side == Ask then 1.0 + SeedOffset(index) else 1.0 - SeedOffset(index));
  }

  function SeedLevel(side: Side, mid: real, index: nat): Level
    requires mid > 0.0 && index < SEED_LEVELS
  {
    SeedPriceIsPositive(side, mid, index);
    Level(SeedPrice(side, mid, index), PER_LEVEL / SeedPrice(side, mid, index), (index + 1) as real * PER_LEVEL)
  }

  function SeedUpTo(side: Side, mid: real, n: nat): seq<Level>
    requires mid > 0.0 && n <= SEED_LEVELS
  {
    seq(n, i requires 0 <= i < n => SeedLevel(side, mid, i))
  }

  lemma {:induction false} SeedPricesWorsen(side: Side, mid: real, i: nat, j: nat)
    requires mid > 0.0 && i <= j < SEED_LEVELS
    ensures NoWorse(side, SeedPrice(side, mid, i), SeedPrice(side, mid, j))
  {
    SeedOffsetsGrow(i, j);
  }

  lemma {:induction false} SeedLevelIs(side: Side, mid: real, index: nat)
    requires mid > 0.0 && index < SEED_LEVELS
    ensures var level := SeedLevel(side, mid, index);
            level.price > 0.0 && level.size > 0.0 && level.total > 0.0 && level.size * level.price == PER_LEVEL
  {
    SeedPriceIsPositive(side, mid, index);
    Times(PER_LEVEL, SeedPrice(side, mid, index));
  }

  /** The seed is a book on both sides, and each of its levels costs the same. */
  lemma {:induction false} SeedIsABook(side: Side, mid: real)
    requires mid > 0.0
    ensures Book(side, SeedUpTo(side, mid, SEED_LEVELS))
    ensures forall i: nat | i < SEED_LEVELS :: SeedLevel(side, mid, i).size * SeedLevel(side, mid, i).price == PER_LEVEL
  {
    forall i: nat | i < SEED_LEVELS
      ensures var level := SeedLevel(side, mid, i);
              level.price > 0.0 && level.size > 0.0 && level.total > 0.0 && level.size * level.price == PER_LEVEL
    {
      SeedLevelIs(side, mid, i);
    }
    forall i: nat, j: nat | i < j < SEED_LEVELS
      ensures NoWorse(side, SeedLevel(side, mid, i).price, SeedLevel(side, mid, j).price) &&
              SeedLevel(side, mid, i).total <= SeedLevel(side, mid, j).total
    {
      SeedPricesWorsen(side, mid, i, j);
    }
  }

  /** The best seed prices lie on either side of the middle, also as shown. */
  lemma {:induction false} SeedIsNotCrossed(mid: real)
    requires mid > 0.0
    ensures FormatPrice(SeedPrice(Bid, mid, 0)) <= FormatPrice(mid) <= FormatPrice(SeedPrice(Ask, mid, 0))
  {
    SeedOffsetsGrow(0, 0);
    SeedPriceIsPositive(Bid, mid, 0);
    FormatIsMonotone(SeedPrice(Bid, mid, 0), mid);
    FormatIsMonotone(mid, SeedPrice(Ask, mid, 0));
  }

  method ReferenceSeedLadder(mid: real) returns (bids: seq<Level>, asks: seq<Level>)
    requires mid > 0.0
    ensures asks == Display(SeedUpTo(Ask, mid, SEED_LEVELS)) && bids == Display(SeedUpTo(Bid, mid, SEED_LEVELS))
    ensures ShownInOrder(Ask, asks) && ShownInOrder(Bid, bids) && bids[0].price <= asks[0].price
  {
    bids, asks := [], [];
    var askTotal, bidTotal := 0.0, 0.0;
    for index := 0 to SEED_LEVELS
      invariant asks == Display(SeedUpTo(Ask, mid, index)) && bids == Display(SeedUpTo(Bid, mid, index))
      invariant askTotal == bidTotal == index as real * PER_LEVEL
    {
      SeedPriceIsPositive(Ask, mid, index);
      SeedPriceIsPositive(Bid, mid, index);
      var askPrice, bidPrice := SeedPrice(Ask, mid, index), SeedPrice(Bid, mid, index);
      askTotal, bidTotal := askTotal + PER_LEVEL, bidTotal + PER_LEVEL;
      asks := asks + [Show(Level(askPrice, PER_LEVEL / askPrice, askTotal))];
      bids := bids + [Show(Level(bidPrice, PER_LEVEL / bidPrice, bidTotal))];
    }
    SeedIsABook(Ask, mid);
    SeedIsABook(Bid, mid);
    SeedIsNotCrossed(mid);
    DisplayIsInOrder(Ask, SeedUpTo(Ask, mid, SEED_LEVELS));
    DisplayIsInOrder(Bid, SeedUpTo(Bid, mid, SEED_LEVELS));
  }
}
