/**
 * The plans of a run over the ERC20 contracts of a network: which ranges are scanned for which contract, and
 * how plans with the same range are put together.
 */
module BatchPlans {
  import opened Wrappers
  import opened LogQueries
  import opened DetectionFold
  import IC = IndexerCursor

  datatype Plan = Plan(contract: Contract, from: nat, to: int, advancesCursor: bool)

  type Key = (nat, int, bool)

  /** What a scan reads: the logs of the chain, the addresses it asks for, and how many it asks for at once. */
  datatype Net = Net(chain: Chain, addresses: seq<string>, batchSize: nat)

  /** Which scans go through, how many logs a failing one records before it throws, and which cursor writes throw. */
  datatype Env = Env(batchOk: Key -> bool, batchCut: Key -> nat, aloneOk: Plan -> bool, aloneCut: Plan -> nat,
                     cursorOk: Plan -> bool)

  ghost predicate ValidNet(net: Net) { net.batchSize >= 1 && DistinctAddresses(net.addresses) }

  function KeyOf(plan: Plan): Key { (plan.from, plan.to, plan.advancesCursor) }

  // ----- plans

  predicate Done(env: Env, plan: Plan) {
    env.batchOk(KeyOf(plan)) || env.aloneOk(plan)
  }

  predicate Named(contracts: seq<Contract>, id: string) {
    exists c :: c in contracts && c.id == id
  }

  function Stored(cursors: map<string, nat>, c: Contract): nat {
    if c.id in cursors then cursors[c.id] else 0
  }

  function CursorPlan(cfg: IC.Config, stored: nat, latest: int, c: Contract): Plan {
    var s := IC.Index(stored, None, []);
    Plan(c, IC.From(cfg, s, latest), IC.To(cfg, s, latest), true)
  }

  function TipPlan(cfg: IC.Config, latest: int, c: Contract): Plan {
    Plan(c, IC.ResolveScanFromBlock(cfg, latest, latest), latest, false)
  }

  /** A plan for the tip while the chunk has not come near it, and the plan that moves the cursor. */
  function PlansFor(cfg: IC.Config, stored: nat, latest: int, c: Contract): seq<Plan> {
    var plan := CursorPlan(cfg, stored, latest, c);
    if plan.to < TipPlan(cfg, latest, c).from then [TipPlan(cfg, latest, c), plan] else [plan]
  }

  function AllPlans(cfg: IC.Config, contracts: seq<Contract>, cursors: map<string, nat>, latest: int): seq<Plan> {
    if contracts == [] then []
    else AllPlans(cfg, contracts[..|contracts| - 1], cursors, latest) +
         PlansFor(cfg, Stored(cursors, contracts[|contracts| - 1]), latest, contracts[|contracts| - 1])
  }

  lemma {:induction false} PlansAre(cfg: IC.Config, contracts: seq<Contract>, cursors: map<string, nat>, latest: int,
                                    plan: Plan)
    ensures plan in AllPlans(cfg, contracts, cursors, latest) <==>
            plan.contract in contracts && plan in PlansFor(cfg, Stored(cursors, plan.contract), latest, plan.contract)
    decreases |contracts|
  {
    if contracts != [] {
      var n := |contracts| - 1;
      PlansAre(cfg, contracts[..n], cursors, latest, plan);
      assert plan.contract in contracts <==> plan.contract in contracts[..n] || plan.contract == contracts[n];
    }
  }

  lemma {:induction false} CursorPlanIsPlanned(cfg: IC.Config, contracts: seq<Contract>, cursors: map<string, nat>,
                                               latest: int, c: Contract)
    requires c in contracts
    ensures CursorPlan(cfg, Stored(cursors, c), latest, c) in AllPlans(cfg, contracts, cursors, latest)
  {
    var plan := CursorPlan(cfg, Stored(cursors, c), latest, c);
    var plans := PlansFor(cfg, Stored(cursors, c), latest, c);
    assert plans[|plans| - 1] == plan;
    PlansAre(cfg, contracts, cursors, latest, plan);
  }

  predicate Plans(plan: Plan, c: Contract, b: nat) { plan.contract == c && plan.from <= b <= plan.to }

  predicate Advances(plan: Plan, c: Contract, from: nat, to: int) {
    plan.contract == c && plan.advancesCursor && plan.from == from && plan.to == to
  }

  /**
   * The blocks planned for a contract: those of its chunk, and, while the chunk ends short of them, those from the
   * overlap of the tip on.  Only the chunk moves its cursor.
   */
  lemma {:induction false} PlannedBlocks(cfg: IC.Config, contracts: seq<Contract>, cursors: map<string, nat>,
                                         latest: nat, c: Contract, b: nat)
    requires IC.ValidConfig(cfg) && c in contracts
    ensures
      var plans, stored := AllPlans(cfg, contracts, cursors, latest), if c.id in cursors then cursors[c.id] else 0;
      var anchor := if stored > 0 then stored else if cfg.start > 0 then cfg.start else latest;
      var from, near := IC.AtLeastZero(anchor - cfg.overlap), IC.AtLeastZero(latest - cfg.overlap);
      var end := IC.Lesser(latest, from + cfg.chunk - 1);
      && ((exists plan :: plan in plans && Plans(plan, c, b)) <==> from <= b <= end || end < near <= b <= latest)
      && (exists plan :: plan in plans && Advances(plan, c, from, end))
      && (forall plan: Plan | plan in plans && plan.contract == c && plan.advancesCursor ::
            Advances(plan, c, from, end))
  {
    var chunk, tip := CursorPlan(cfg, Stored(cursors, c), latest, c), TipPlan(cfg, latest, c);
    forall plan: Plan | plan.contract == c
      ensures plan in AllPlans(cfg, contracts, cursors, latest) <==>
              plan == chunk || (plan == tip && chunk.to < tip.from)
    {
      PlansAre(cfg, contracts, cursors, latest, plan);
    }
    assert Plans(chunk, c, b) <==> chunk.from <= b <= chunk.to;
    assert Plans(tip, c, b) <==> tip.from <= b <= tip.to;
  }

  /** A cursor plan far behind the tip stands right behind the tip plan of its contract. */
  lemma {:induction false} TipStandsBefore(cfg: IC.Config, contracts: seq<Contract>, cursors: map<string, nat>,
                                           latest: int, j: nat)
    requires j < |AllPlans(cfg, contracts, cursors, latest)|
    requires var plan := AllPlans(cfg, contracts, cursors, latest)[j];
             plan.advancesCursor && plan.to < IC.ResolveScanFromBlock(cfg, latest, latest)
    ensures j > 0 && KeyOf(AllPlans(cfg, contracts, cursors, latest)[j - 1]) ==
                     (IC.ResolveScanFromBlock(cfg, latest, latest), latest, false)
    decreases |contracts|
  {
    var n := |contracts| - 1;
    if j < |AllPlans(cfg, contracts[..n], cursors, latest)| {
      TipStandsBefore(cfg, contracts[..n], cursors, latest, j);
    }
  }

  method BuildPlans(cfg: IC.Config, contracts: seq<Contract>, cursors: map<string, nat>, latest: int)
    returns (plans: seq<Plan>)
    ensures plans == AllPlans(cfg, contracts, cursors, latest)
  {
    plans := [];
    for i := 0 to |contracts|
      invariant plans == AllPlans(cfg, contracts[..i], cursors, latest)
    {
      var plan := CursorPlan(cfg, Stored(cursors, contracts[i]), latest, contracts[i]);
      var recent := IC.ResolveScanFromBlock(cfg, latest, latest);
      var tip := if plan.to < recent then [Plan(contracts[i], recent, latest, false)] else [];
      assert contracts[..i + 1][..i] == contracts[..i];
      assert tip + [plan] == PlansFor(cfg, Stored(cursors, contracts[i]), latest, contracts[i]);
      assert plans + (tip + [plan]) == plans + tip + [plan];
      plans := plans + tip + [plan];
    }
    assert contracts[..|contracts|] == contracts;
  }

  /** Each group holds exactly the plans with its key. */
  ghost predicate Grouped(plans: seq<Plan>, groups: map<Key, seq<Plan>>) {
    && (forall key | key in groups :: groups[key] != [])
    && (forall key, plan | key in groups && plan in groups[key] :: KeyOf(plan) == key && plan in plans)
    && (forall plan | plan in plans :: KeyOf(plan) in groups && plan in groups[KeyOf(plan)])
  }

  /** The key appears at j, and every key before it is listed before. */
  ghost predicate AppearsAt(plans: seq<Plan>, key: Key, before: seq<Key>, j: nat) {
    j < |plans| && KeyOf(plans[j]) == key && forall i | 0 <= i < j :: KeyOf(plans[i]) in before
  }

  /** Keys in the order in which they first appear, each once. */
  ghost predicate FirstSeen(plans: seq<Plan>, order: seq<Key>) {
    forall p: nat | p < |order| :: SeenInTurn(plans, order[p], order[..p])
  }

  ghost predicate SeenInTurn(plans: seq<Plan>, key: Key, before: seq<Key>) {
    key !in before && exists j: nat :: AppearsAt(plans, key, before, j)
  }

  lemma {:induction false} SeenStays(plans: seq<Plan>, more: seq<Plan>, key: Key, before: seq<Key>)
    requires SeenInTurn(plans, key, before)
    ensures SeenInTurn(plans + more, key, before)
  {
    var j: nat :| AppearsAt(plans, key, before, j);
    assert AppearsAt(plans + more, key, before, j);
  }

  lemma {:induction false} FirstSeenStays(plans: seq<Plan>, more: seq<Plan>, order: seq<Key>)
    requires FirstSeen(plans, order)
    ensures FirstSeen(plans + more, order)
  {
    forall p: nat | p < |order| ensures SeenInTurn(plans + more, order[p], order[..p]) {
      SeenStays(plans, more, order[p], order[..p]);
    }
  }

  lemma {:induction false} FirstSeenGrows(plans: seq<Plan>, plan: Plan, order: seq<Key>)
    requires FirstSeen(plans, order) && KeyOf(plan) !in order && forall p | p in plans :: KeyOf(p) in order
    ensures FirstSeen(plans + [plan], order + [KeyOf(plan)])
  {
    var all := order + [KeyOf(plan)];
    forall p: nat | p < |all| ensures SeenInTurn(plans + [plan], all[p], all[..p]) {
      if p < |order| {
        assert all[..p] == order[..p];
        SeenStays(plans, [plan], order[p], order[..p]);
      } else {
        assert all[..p] == order;
        assert AppearsAt(plans + [plan], all[p], all[..p], |plans|);
      }
    }
  }

  lemma {:induction false} GroupedMore(plans: seq<Plan>, groups: map<Key, seq<Plan>>, plan: Plan)
    requires Grouped(plans, groups)
    ensures var key := KeyOf(plan);
            Grouped(plans + [plan], groups[key := (if key in groups then groups[key] else []) + [plan]])
  {
  }

  method GroupPlans(plans: seq<Plan>) returns (groups: map<Key, seq<Plan>>, order: seq<Key>)
    ensures Grouped(plans, groups) && FirstSeen(plans, order)
    ensures forall key :: key in groups <==> key in order
  {
    groups, order := map[], [];
    for i := 0 to |plans|
      invariant Grouped(plans[..i], groups) && FirstSeen(plans[..i], order)
      invariant forall key :: key in groups <==> key in order
    {
      var key := KeyOf(plans[i]);
      assert plans[..i + 1] == plans[..i] + [plans[i]];
      GroupedMore(plans[..i], groups, plans[i]);
      if key in order {
        FirstSeenStays(plans[..i], [plans[i]], order);
      } else {
        FirstSeenGrows(plans[..i], plans[i], order);
        order := order + [key];
      }
      groups := groups[key := (if key in groups then groups[key] else []) + [plans[i]]];
    }
    assert plans[..|plans|] == plans;
  }

  /** The tip group of a contract is visited before the group of its cursor. */
  lemma {:induction false} TipIsVisitedFirst(cfg: IC.Config, contracts: seq<Contract>, cursors: map<string, nat>,
                                             latest: int, order: seq<Key>, c: Contract, p: nat)
    requires FirstSeen(AllPlans(cfg, contracts, cursors, latest), order) && p < |order|
    requires var plans := PlansFor(cfg, Stored(cursors, c), latest, c); |plans| == 2 && order[p] == KeyOf(plans[1])
    ensures KeyOf(TipPlan(cfg, latest, c)) in order[..p]
  {
    var plans := AllPlans(cfg, contracts, cursors, latest);
    assert SeenInTurn(plans, order[p], order[..p]);
    var j: nat :| AppearsAt(plans, order[p], order[..p], j);
    TipStandsBefore(cfg, contracts, cursors, latest, j);
    assert KeyOf(plans[j - 1]) in order[..p];
  }

  /** A group of all plans with the key that is next in the order. */
  ghost predicate GroupInTurn(cfg: IC.Config, contracts: seq<Contract>, cursors: map<string, nat>, latest: int,
                              order: seq<Key>, p: nat, group: seq<Plan>)
  {
    && p < |order| && group != [] && FirstSeen(AllPlans(cfg, contracts, cursors, latest), order)
    && forall plan :: plan in group <==> plan in AllPlans(cfg, contracts, cursors, latest) && KeyOf(plan) == order[p]
  }

  lemma {:induction false} PlansEndAboveZero(cfg: IC.Config, contracts: seq<Contract>, cursors: map<string, nat>,
                                             latest: nat, plan: Plan)
    requires IC.ValidConfig(cfg) && plan in AllPlans(cfg, contracts, cursors, latest)
    ensures plan.to >= 0
  {
    PlansAre(cfg, contracts, cursors, latest, plan);
  }
}
