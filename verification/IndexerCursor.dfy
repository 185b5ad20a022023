/**
 * The cursor of one indexed EVM contract: bounded catch-up chunks behind the tip, a scan of the tip
 * itself while the gap is open, and an overlap against reorganisations.  A run sees a chain that an
 * adversary chooses and may fail at any of its writes.
 */
module IndexerCursor {
  import opened Wrappers

  /** What a scan can find in one block. */
  type Block = int

  datatype Config = Config(start: nat, overlap: nat, chunk: nat)

  /** A scan that went through, with the chain it read. */
  datatype Scan = Scan(from: nat, to: int, chain: seq<Block>)

  /** `origin` is where the first completed run started; cursor 0 means unset. */
  datatype Index = Index(cursor: nat, origin: Option<nat>, scans: seq<Scan>)

  const UNSET := Index(0, None, [])

  datatype Outcome = FailsAtOnce | FailsAfterTip | FailsAfterChunk | Complete

  datatype Visit = Visit(chain: seq<Block>, outcome: Outcome)

  function Tip(chain: seq<Block>): int { |chain| - 1 }

  function ResolveScanFromBlock(cfg: Config, stored: int, latest: int): nat {
    var anchor := if stored > 0 then stored else if cfg.start > 0 then cfg.start else latest;
    if anchor - cfg.overlap < 0 then 0 else anchor - cfg.overlap
  }

  function From(cfg: Config, s: Index, latest: int): nat { ResolveScanFromBlock(cfg, s.cursor, latest) }

  function To(cfg: Config, s: Index, latest: int): int {
    var end := From(cfg, s, latest) + cfg.chunk - 1;
    if latest <= end then latest else end
  }

  /** The tip scan, needed while the chunk ends below the overlap of the tip. */
  function TipScan(cfg: Config, s: Index, chain: seq<Block>): seq<Scan> {
    var recent := ResolveScanFromBlock(cfg, Tip(chain), Tip(chain));
    if To(cfg, s, Tip(chain)) < recent then [Scan(recent, Tip(chain), chain)] else []
  }

  function ChunkScan(cfg: Config, s: Index, chain: seq<Block>): Scan {
    Scan(From(cfg, s, Tip(chain)), To(cfg, s, Tip(chain)), chain)
  }

  predicate ValidVisit(v: Visit) { |v.chain| >= 2 }

  predicate ValidVisits(visits: seq<Visit>) { forall i | 0 <= i < |visits| :: ValidVisit(visits[i]) }

  predicate ValidConfig(cfg: Config) { cfg.chunk >= 1 }

  function RunOnce(cfg: Config, s: Index, v: Visit): Index
    requires ValidConfig(cfg) && ValidVisit(v)
  {
    var tip := TipScan(cfg, s, v.chain);
    var chunk := ChunkScan(cfg, s, v.chain);
    match v.outcome
    case FailsAtOnce => s
    case FailsAfterTip => s.(scans := s.scans + tip)
    case FailsAfterChunk => s.(scans := s.scans + tip + [chunk])
    case Complete => Index(chunk.to, if s.origin.Some? then s.origin else Some(chunk.from), s.scans + tip + [chunk])
  }

  function RunAll(cfg: Config, s: Index, visits: seq<Visit>): Index
    requires ValidConfig(cfg) && ValidVisits(visits)
    decreases |visits|
  {
    if visits == [] then s else RunAll(cfg, RunOnce(cfg, s, visits[0]), visits[1..])
  }

  // ----- what the scans cover

  predicate Covers(scan: Scan, b: nat) { scan.from <= b <= scan.to }

  predicate Scanned(scans: seq<Scan>, b: nat) {
    exists i :: 0 <= i < |scans| && Covers(scans[i], b)
  }

  /** The last scan of a block saw it deeper than the overlap. */
  predicate Settled(scans: seq<Scan>, b: nat, overlap: nat) {
    scans != [] &&
    var last := scans[|scans| - 1];
    if Covers(last, b) then Tip(last.chain) - b > overlap else Settled(scans[..|scans| - 1], b, overlap)
  }

  ghost predicate Inv(cfg: Config, s: Index) {
    && (s.cursor > 0 <==> s.origin.Some?)
    && (s.origin.Some? ==>
          && (forall b: nat | s.origin.value <= b <= s.cursor :: Scanned(s.scans, b))
          && (forall b: nat | s.origin.value <= b && b + cfg.overlap < s.cursor :: Settled(s.scans, b, cfg.overlap)))
    && (forall i | 0 <= i < |s.scans| :: s.scans[i].to < |s.scans[i].chain|)
  }

  lemma {:induction false} ScannedMore(scans: seq<Scan>, more: seq<Scan>, b: nat)
    requires Scanned(scans, b)
    ensures Scanned(scans + more, b)
  {
    var i :| 0 <= i < |scans| && Covers(scans[i], b);
    assert (scans + more)[i] == scans[i];
  }

  lemma {:induction false} ScannedNow(scans: seq<Scan>, scan: Scan, b: nat)
    requires Covers(scan, b)
    ensures Scanned(scans + [scan], b)
  {
    assert (scans + [scan])[|scans|] == scan;
  }

  lemma {:induction false} SettledStays(scans: seq<Scan>, more: seq<Scan>, b: nat, overlap: nat)
    requires Settled(scans, b, overlap)
    requires forall i | 0 <= i < |more| :: !Covers(more[i], b)
    ensures Settled(scans + more, b, overlap)
    decreases |more|
  {
    if more == [] {
      assert scans + more == scans;
    } else {
      var n := |more| - 1;
      SettledStays(scans, more[..n], b, overlap);
      assert (scans + more)[..|scans + more| - 1] == scans + more[..n];
    }
  }

  lemma {:induction false} FailedRunKeeps(cfg: Config, s: Index, v: Visit)
    requires ValidConfig(cfg) && ValidVisit(v) && Inv(cfg, s) && v.outcome != Complete
    ensures Inv(cfg, RunOnce(cfg, s, v))
  {
    var s' := RunOnce(cfg, s, v);
    if s.origin.Some? {
      var more := s'.scans[|s.scans|..];
      assert s'.scans == s.scans + more;
      forall b: nat | s.origin.value <= b <= s.cursor ensures Scanned(s'.scans, b) {
        ScannedMore(s.scans, more, b);
      }
      forall b: nat | s.origin.value <= b && b + cfg.overlap < s.cursor ensures Settled(s'.scans, b, cfg.overlap) {
        SettledStays(s.scans, more, b, cfg.overlap);
      }
    }
  }

  lemma {:induction false} CompleteRunKeeps(cfg: Config, s: Index, v: Visit)
    requires ValidConfig(cfg) && cfg.chunk >= 2 && ValidVisit(v) && Inv(cfg, s) && v.outcome == Complete
    ensures Inv(cfg, RunOnce(cfg, s, v))
  {
    var s' := RunOnce(cfg, s, v);
    var chunk := ChunkScan(cfg, s, v.chain);
    var before := s.scans + TipScan(cfg, s, v.chain);
    forall b: nat | s'.origin.value <= b <= s'.cursor ensures Scanned(s'.scans, b) {
      if Covers(chunk, b) {
        ScannedNow(before, chunk, b);
      } else {
        ScannedMore(s.scans, TipScan(cfg, s, v.chain) + [chunk], b);
        assert s'.scans == s.scans + (TipScan(cfg, s, v.chain) + [chunk]);
      }
    }
    forall b: nat | s'.origin.value <= b && b + cfg.overlap < s'.cursor ensures Settled(s'.scans, b, cfg.overlap) {
      assert s'.scans[..|s'.scans| - 1] == before;
      if !Covers(chunk, b) {
        SettledStays(s.scans, TipScan(cfg, s, v.chain), b, cfg.overlap);
      }
    }
  }

  lemma {:induction false} RunAllKeeps(cfg: Config, s: Index, visits: seq<Visit>)
    requires ValidConfig(cfg) && cfg.chunk >= 2 && Inv(cfg, s) && ValidVisits(visits)
    ensures Inv(cfg, RunAll(cfg, s, visits))
    decreases |visits|
  {
    if visits != [] {
      if visits[0].outcome == Complete {
        CompleteRunKeeps(cfg, s, visits[0]);
      } else {
        FailedRunKeeps(cfg, s, visits[0]);
      }
      RunAllKeeps(cfg, RunOnce(cfg, s, visits[0]), visits[1..]);
    }
  }

  // ----- chunks of one block

  /** A chunk of one block never carries the cursor past the first block scanned. */
  ghost predicate StandsStill(cfg: Config, s: Index) {
    && (s.origin.None? ==> s.cursor == 0)
    && (s.origin.Some? ==>
          && s.cursor <= s.origin.value
          && (s.cursor == s.origin.value ==> Scanned(s.scans, s.cursor))
          && (cfg.start > 0 ==> s.origin.value == ResolveScanFromBlock(cfg, 0, 0))
          && (cfg.start == 0 ==> s.cursor > 0))
  }

  lemma {:induction false} OneBlockRunStandsStill(cfg: Config, s: Index, v: Visit)
    requires cfg.chunk == 1 && (cfg.start > 0 || cfg.overlap == 0) && StandsStill(cfg, s) && ValidVisit(v)
    ensures StandsStill(cfg, RunOnce(cfg, s, v))
  {
    var s' := RunOnce(cfg, s, v);
    if v.outcome == Complete {
      if s'.cursor == s'.origin.value {
        ScannedNow(s.scans + TipScan(cfg, s, v.chain), ChunkScan(cfg, s, v.chain), s'.cursor);
      }
    } else if s.origin.Some? && s.cursor == s.origin.value {
      ScannedMore(s.scans, s'.scans[|s.scans|..], s.cursor);
      assert s'.scans == s.scans + s'.scans[|s.scans|..];
    }
  }

  lemma {:induction false} OneBlockRunsStandStill(cfg: Config, s: Index, visits: seq<Visit>)
    requires cfg.chunk == 1 && (cfg.start > 0 || cfg.overlap == 0) && StandsStill(cfg, s) && ValidVisits(visits)
    ensures StandsStill(cfg, RunAll(cfg, s, visits))
    decreases |visits|
  {
    if visits != [] {
      OneBlockRunStandsStill(cfg, s, visits[0]);
      OneBlockRunsStandStill(cfg, RunOnce(cfg, s, visits[0]), visits[1..]);
    }
  }

  // ----- safety, for every configuration

  /** A cursor cannot fall back to 0 and then be taken for unset far behind the tip. */
  predicate SafeConfig(cfg: Config) { cfg.chunk >= 2 || cfg.start > 0 || cfg.overlap == 0 }

  /**
   * Every block from the first scan up to the cursor has been scanned, and every block below the overlap was
   * last scanned deeper than the overlap.
   */
  predicate SafeAt(cfg: Config, s: Index, b: nat) {
    s.origin.Some? && s.origin.value <= b <= s.cursor ==>
      && Scanned(s.scans, b)
      && (b + cfg.overlap < s.cursor ==> Settled(s.scans, b, cfg.overlap))
  }

  /** For any tips, in any order, and any failures. */
  lemma {:induction false} CursorIsSafe(cfg: Config, visits: seq<Visit>, b: nat)
    requires ValidConfig(cfg) && SafeConfig(cfg) && ValidVisits(visits)
    ensures SafeAt(cfg, RunAll(cfg, UNSET, visits), b)
  {
    if cfg.chunk >= 2 {
      RunAllKeeps(cfg, UNSET, visits);
    } else {
      OneBlockRunsStandStill(cfg, UNSET, visits);
    }
  }

  /** A run at the tip 1 and a run far above it, both complete. */
  function Forgetful(cfg: Config): seq<Visit> {
    [Visit([0, 0], Complete), Visit(seq(cfg.overlap + 3, i => 0), Complete)]
  }

  /**
   * In every other configuration two runs are enough: the first leaves the cursor at 0, the second takes it
   * for unset and starts below its tip, and block 1 is passed unread.
   */
  lemma {:induction false} OneBlockChunksForget(cfg: Config)
    requires ValidConfig(cfg) && !SafeConfig(cfg)
    ensures ValidVisits(Forgetful(cfg)) && !SafeAt(cfg, RunAll(cfg, UNSET, Forgetful(cfg)), 1)
  {
    var f := Forgetful(cfg);
    var s1 := RunOnce(cfg, UNSET, f[0]);
    assert s1 == Index(0, Some(0), [Scan(0, 0, f[0].chain)]);
    var s2 := RunOnce(cfg, s1, f[1]);
    assert s2.scans == [Scan(0, 0, f[0].chain), Scan(2, 2, f[1].chain)];
    assert RunAll(cfg, s1, f[1..]) == RunAll(cfg, s2, f[1..][1..]) && f[1..][1..] == [];
  }

  ghost predicate AlwaysSafe(cfg: Config)
    requires ValidConfig(cfg)
  {
    forall visits, b: nat | ValidVisits(visits) :: SafeAt(cfg, RunAll(cfg, UNSET, visits), b)
  }

  /** The cursor is safe over every run exactly in the safe configurations. */
  lemma {:induction false} SafeConfigIsExact(cfg: Config)
    requires ValidConfig(cfg)
    ensures AlwaysSafe(cfg) <==> SafeConfig(cfg)
  {
    if SafeConfig(cfg) {
      forall visits, b: nat | ValidVisits(visits) ensures SafeAt(cfg, RunAll(cfg, UNSET, visits), b) {
        CursorIsSafe(cfg, visits, b);
      }
    } else {
      OneBlockChunksForget(cfg);
    }
  }

  // ----- what one run adds

  function AtLeastZero(n: int): nat { if n > 0 then n else 0 }

  function Lesser(a: int, b: int): int { if a < b then a else b }

  lemma {:induction false} ScannedEither(early: seq<Scan>, late: seq<Scan>, b: nat)
    requires |early| <= 1 && |late| <= 1
    ensures Scanned(early + late, b) <==>
            (early != [] && Covers(early[0], b)) || (late != [] && Covers(late[0], b))
  {
    if early != [] && Covers(early[0], b) {
      ScannedMore(early, late, b);
    }
    if late != [] && Covers(late[0], b) {
      assert early + late == early + [late[0]];
      ScannedNow(early, late[0], b);
    }
  }

  /**
   * The blocks a run scans: those the chunk ends short of, from the overlap of the tip on, and, unless it fails
   * before, those of the chunk; the cursor moves to the end of the chunk exactly if the run completes.
   */
  lemma {:induction false} OneRunScans(cfg: Config, s: Index, v: Visit, b: nat)
    requires ValidConfig(cfg) && ValidVisit(v)
    ensures
      var s', tip := RunOnce(cfg, s, v), |v.chain| - 1;
      var anchor := if s.cursor > 0 then s.cursor else if cfg.start > 0 then cfg.start else tip;
      var from, near := AtLeastZero(anchor - cfg.overlap), AtLeastZero(tip - cfg.overlap);
      var end := Lesser(tip, from + cfg.chunk - 1);
      && s.scans <= s'.scans
      && (Scanned(s'.scans[|s.scans|..], b) <==>
           (v.outcome != FailsAtOnce && end < near <= b <= tip) ||
           ((v.outcome == FailsAfterChunk || v.outcome == Complete) && from <= b <= end))
      && s'.cursor == (if v.outcome == Complete then end else s.cursor)
  {
    var early := if v.outcome == FailsAtOnce then [] else TipScan(cfg, s, v.chain);
    var late := if v.outcome == FailsAtOnce || v.outcome == FailsAfterTip then [] else [ChunkScan(cfg, s, v.chain)];
    assert RunOnce(cfg, s, v).scans[|s.scans|..] == early + late by {
      assert RunOnce(cfg, s, v).scans == s.scans + (early + late);
    }
    ScannedEither(early, late, b);
  }

  lemma {:induction false} RunAllSnoc(cfg: Config, s: Index, visits: seq<Visit>, v: Visit)
    requires ValidConfig(cfg) && ValidVisits(visits) && ValidVisit(v)
    ensures ValidVisits(visits + [v]) && RunAll(cfg, s, visits + [v]) == RunOnce(cfg, RunAll(cfg, s, visits), v)
    decreases |visits|
  {
    var all := visits + [v];
    if visits == [] {
      assert all == [v] && all[1..] == [];
    } else {
      assert all[1..] == visits[1..] + [v];
      RunAllSnoc(cfg, RunOnce(cfg, s, visits[0]), visits[1..], v);
    }
  }

  /**
   * The tip is seen while a cursor is far behind: after every complete run the cursor is within the overlap of the
   * tip, or the run has scanned every block from there to the tip.
   */
  lemma {:induction false} TipIsSeen(cfg: Config, visits: seq<Visit>, v: Visit, b: nat)
    requires ValidConfig(cfg) && ValidVisits(visits) && ValidVisit(v) && v.outcome == Complete
    requires |v.chain| - 1 - cfg.overlap <= b <= |v.chain| - 1
    ensures ValidVisits(visits + [v])
    ensures var s, s' := RunAll(cfg, UNSET, visits), RunAll(cfg, UNSET, visits + [v]);
            s'.cursor >= |v.chain| - 1 - cfg.overlap || (s.scans <= s'.scans && Scanned(s'.scans[|s.scans|..], b))
  {
    RunAllSnoc(cfg, UNSET, visits, v);
    OneRunScans(cfg, RunAll(cfg, UNSET, visits), v, b);
  }

  predicate Completed(visits: seq<Visit>) { exists i :: 0 <= i < |visits| && visits[i].outcome == Complete }

  lemma {:induction false} UncompletedIsUnset(cfg: Config, visits: seq<Visit>)
    requires ValidConfig(cfg) && ValidVisits(visits) && !Completed(visits)
    ensures RunAll(cfg, UNSET, visits).cursor == 0 && RunAll(cfg, UNSET, visits).origin == None
    decreases |visits|
  {
    if visits != [] {
      var before, last := visits[..|visits| - 1], visits[|visits| - 1];
      assert visits == before + [last];
      assert forall i | 0 <= i < |before| :: before[i] == visits[i];
      UncompletedIsUnset(cfg, before);
      RunAllSnoc(cfg, UNSET, before, last);
    }
  }

  lemma {:induction false} OriginStays(cfg: Config, s: Index, visits: seq<Visit>)
    requires ValidConfig(cfg) && ValidVisits(visits) && s.origin.Some?
    ensures RunAll(cfg, s, visits).origin == s.origin
    decreases |visits|
  {
    if visits != [] {
      OriginStays(cfg, RunOnce(cfg, s, visits[0]), visits[1..]);
    }
  }

  lemma {:induction false} RunAllConcat(cfg: Config, s: Index, a: seq<Visit>, b: seq<Visit>)
    requires ValidConfig(cfg) && ValidVisits(a) && ValidVisits(b)
    ensures ValidVisits(a + b) && RunAll(cfg, s, a + b) == RunAll(cfg, RunAll(cfg, s, a), b)
    decreases |a|
  {
    if a == [] {
      assert a + b == b;
    } else {
      assert (a + b)[0] == a[0] && (a + b)[1..] == a[1..] + b;
      RunAllConcat(cfg, RunOnce(cfg, s, a[0]), a[1..], b);
    }
  }

  /** Indexing starts an overlap below the configured start, or below the tip the first complete run has seen. */
  lemma {:induction false} OriginIsTheStart(cfg: Config, before: seq<Visit>, first: Visit, after: seq<Visit>)
    requires ValidConfig(cfg) && ValidVisits(before) && ValidVisit(first) && ValidVisits(after)
    requires !Completed(before) && first.outcome == Complete
    ensures ValidVisits(before + [first] + after)
    ensures var anchor := if cfg.start > 0 then cfg.start else |first.chain| - 1;
            RunAll(cfg, UNSET, before + [first] + after).origin == Some(AtLeastZero(anchor - cfg.overlap))
  {
    UncompletedIsUnset(cfg, before);
    RunAllSnoc(cfg, UNSET, before, first);
    RunAllConcat(cfg, UNSET, before + [first], after);
    OriginStays(cfg, RunAll(cfg, UNSET, before + [first]), after);
  }

  // ----- reorganisations

  /** A chain seen differs from the final one only in blocks no deeper than the overlap. */
  ghost predicate ShallowlyReorganised(chain: seq<Block>, final: seq<Block>, overlap: nat) {
    forall b: nat | b + overlap < Tip(chain) && b < |final| :: chain[b] == final[b]
  }

  predicate Recorded(scans: seq<Scan>, b: nat, block: Block) {
    exists i :: 0 <= i < |scans| && Covers(scans[i], b) && b < |scans[i].chain| && scans[i].chain[b] == block
  }

  lemma {:induction false} SettledIsRecorded(scans: seq<Scan>, final: seq<Block>, b: nat, overlap: nat)
    requires Settled(scans, b, overlap) && b < |final|
    requires forall scan | scan in scans :: ShallowlyReorganised(scan.chain, final, overlap)
    ensures Recorded(scans, b, final[b])
    decreases |scans|
  {
    var n := |scans| - 1;
    assert ShallowlyReorganised(scans[n].chain, final, overlap);
    if !Covers(scans[n], b) {
      SettledIsRecorded(scans[..n], final, b, overlap);
      var i :| 0 <= i < n && Covers(scans[..n][i], b) && b < |scans[i].chain| && scans[..n][i].chain[b] == final[b];
      assert scans[i] == scans[..n][i];
    }
  }

  lemma {:induction false} ScansComeFromVisits(cfg: Config, s: Index, visits: seq<Visit>, final: seq<Block>)
    requires ValidConfig(cfg) && ValidVisits(visits)
    requires forall i | 0 <= i < |visits| :: ShallowlyReorganised(visits[i].chain, final, cfg.overlap)
    requires forall scan | scan in s.scans :: ShallowlyReorganised(scan.chain, final, cfg.overlap)
    ensures forall scan | scan in RunAll(cfg, s, visits).scans :: ShallowlyReorganised(scan.chain, final, cfg.overlap)
    decreases |visits|
  {
    if visits != [] {
      var s' := RunOnce(cfg, s, visits[0]);
      forall scan | scan in s'.scans ensures ShallowlyReorganised(scan.chain, final, cfg.overlap) {
        assert scan in s.scans || scan.chain == visits[0].chain;
      }
      ScansComeFromVisits(cfg, s', visits[1..], final);
    }
  }

  /** If no reorganisation is deeper than the overlap, what the final chain holds below it has been read. */
  lemma {:induction false} NothingIsLost(cfg: Config, visits: seq<Visit>, final: seq<Block>, b: nat)
    requires ValidConfig(cfg) && SafeConfig(cfg) && ValidVisits(visits)
    requires forall i | 0 <= i < |visits| :: ShallowlyReorganised(visits[i].chain, final, cfg.overlap)
    requires var s := RunAll(cfg, UNSET, visits);
             s.origin.Some? && s.origin.value <= b && b + cfg.overlap < s.cursor && b < |final|
    ensures Recorded(RunAll(cfg, UNSET, visits).scans, b, final[b])
  {
    CursorIsSafe(cfg, visits, b);
    ScansComeFromVisits(cfg, UNSET, visits, final);
    SettledIsRecorded(RunAll(cfg, UNSET, visits).scans, final, b, cfg.overlap);
  }

  // ----- progress towards a fixed tip

  function Repeat(cfg: Config, s: Index, chain: seq<Block>, n: nat): Index
    requires ValidConfig(cfg) && |chain| >= 2
  {
    if n == 0 then s else RunOnce(cfg, Repeat(cfg, s, chain, n - 1), Visit(chain, Complete))
  }

  lemma {:induction false} EachRunGains(cfg: Config, s: Index, chain: seq<Block>, n: nat)
    requires ValidConfig(cfg) && |chain| >= 2 && 1 <= s.cursor <= Tip(chain) && cfg.chunk - 1 > cfg.overlap
    ensures
      var r := Repeat(cfg, s, chain, n);
      1 <= r.cursor <= Tip(chain) &&
        (r.cursor == Tip(chain) || r.cursor >= s.cursor + n * (cfg.chunk - 1 - cfg.overlap))
  {
    if n > 0 {
      EachRunGains(cfg, s, chain, n - 1);
      var g := cfg.chunk - 1 - cfg.overlap;
      assert n * g == (n - 1) * g + g;
    }
  }

  lemma {:induction false} NoRunGains(cfg: Config, s: Index, chain: seq<Block>, n: nat)
    requires ValidConfig(cfg) && |chain| >= 2 && cfg.chunk >= 2 && cfg.chunk - 1 <= cfg.overlap
    requires 1 <= s.cursor < Tip(chain) && cfg.overlap < Tip(chain)
    ensures 1 <= Repeat(cfg, s, chain, n).cursor < Tip(chain)
  {
    if n > 0 {
      NoRunGains(cfg, s, chain, n - 1);
    }
  }

  predicate AtTipAfter(cfg: Config, s: Index, chain: seq<Block>, n: nat)
    requires ValidConfig(cfg) && |chain| >= 2
  {
    Repeat(cfg, s, chain, n).cursor == Tip(chain)
  }

  /**
   * A cursor behind a fixed tip reaches it exactly when a chunk outruns the overlap, and then within
   * as many runs as there are blocks to go.
   */
  lemma {:induction false} ReachesTheTip(cfg: Config, s: Index, chain: seq<Block>)
    requires ValidConfig(cfg) && cfg.chunk >= 2 && |chain| >= 2 && 1 <= s.cursor < Tip(chain) &&
             cfg.overlap < Tip(chain)
    ensures (exists n: nat :: AtTipAfter(cfg, s, chain, n)) <==> cfg.chunk - 1 > cfg.overlap
    ensures cfg.chunk - 1 > cfg.overlap ==> AtTipAfter(cfg, s, chain, Tip(chain) - s.cursor)
  {
    if cfg.chunk - 1 > cfg.overlap {
      EnoughRuns(cfg, s, chain, Tip(chain) - s.cursor);
    } else {
      forall n: nat ensures !AtTipAfter(cfg, s, chain, n) {
        NoRunGains(cfg, s, chain, n);
      }
    }
  }

  lemma {:induction false} EnoughRuns(cfg: Config, s: Index, chain: seq<Block>, n: nat)
    requires ValidConfig(cfg) && |chain| >= 2 && 1 <= s.cursor <= Tip(chain) && cfg.chunk - 1 > cfg.overlap
    requires n == Tip(chain) - s.cursor
    ensures AtTipAfter(cfg, s, chain, n)
  {
    EachRunGains(cfg, s, chain, n);
    AtLeast(n, cfg.chunk - 1 - cfg.overlap);
  }

  lemma {:induction false} AtLeast(n: nat, g: int)
    requires g >= 1
    ensures n * g >= n
  {
  }

  class ContractIndexer {
    const cfg: Config
    var index: Index

    constructor (cfg: Config)
      requires ValidConfig(cfg)
      ensures this.cfg == cfg && index == UNSET
    {
      this.cfg, index := cfg, UNSET;
    }

    /** One run over this contract; a failure leaves the cursor where it was. */
    method ScanConfiguredAsset(v: Visit) returns (advanced: bool)
      requires ValidConfig(cfg) && ValidVisit(v)
      modifies this`index
      ensures index == RunOnce(cfg, old(index), v)
      ensures advanced <==> v.outcome == Complete
      ensures !advanced ==> index.cursor == old(index).cursor && index.origin == old(index).origin
    {
      if v.outcome == FailsAtOnce {
        return false;
      }
      var latest := |v.chain| - 1;
      var fromBlock := ResolveScanFromBlock(cfg, index.cursor, latest);
      var toBlock := if latest <= fromBlock + cfg.chunk - 1 then latest else fromBlock + cfg.chunk - 1;
      var recentFromBlock := ResolveScanFromBlock(cfg, latest, latest);
      if toBlock < recentFromBlock {
        index := index.(scans := index.scans + [Scan(recentFromBlock, latest, v.chain)]);
      } else {
        assert index.scans + [] == index.scans;
      }
      if v.outcome == FailsAfterTip {
        return false;
      }
      index := index.(scans := index.scans + [Scan(fromBlock, toBlock, v.chain)]);
      if v.outcome == FailsAfterChunk {
        return false;
      }
      index := index.(cursor := toBlock, origin := if index.origin.Some? then index.origin else Some(fromBlock));
      advanced := true;
    }
  }
}
