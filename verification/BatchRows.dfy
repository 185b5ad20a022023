/**
 * What a run over the contracts of a network leaves recorded for one contract and one address: what scanning
 * the plans of that contract alone leaves.
 */
module BatchRows {
  import opened LogQueries
  import opened DetectionFold
  import opened BatchPlans
  import IC = IndexerCursor

  // ----- one plan

  function Contracts(group: seq<Plan>): seq<Contract> {
    seq(|group|, i requires 0 <= i < |group| => group[i].contract)
  }

  function Addresses(group: seq<Plan>): seq<string> {
    seq(|group|, i requires 0 <= i < |group| => group[i].contract.address)
  }

  /** The logs of a plan's contract to an address: what a scan of the contract alone finds there. */
  function Own(net: Net, plan: Plan, d: string): seq<Log> {
    if d in net.addresses then LogsIn(net.chain, [plan.contract.address], [d], plan.from, plan.to) else []
  }

  /** All plans of a group have its key, and its contracts are told apart by id and by address. */
  ghost predicate OneRange(group: seq<Plan>, key: Key) {
    group != [] && Coherent(Contracts(group)) && forall i | 0 <= i < |group| :: KeyOf(group[i]) == key
  }

  function GroupLogs(net: Net, group: seq<Plan>, key: Key): seq<Log>
    requires net.batchSize >= 1
  {
    ScanOrder(net.chain, Addresses(group), net.addresses, net.batchSize, key.0, key.1)
  }

  /** In the scan of a group each contract and address find the logs of their own scan, in its order. */
  lemma {:induction false} OwnSubsequence(net: Net, group: seq<Plan>, key: Key, plan: Plan, d: string)
    requires ValidNet(net) && OneRange(group, key) && plan in group
    ensures Select(GroupLogs(net, group, key), [plan.contract.address], [d]) == Own(net, plan, d)
    ensures Select(GroupLogs(net, [plan], key), [plan.contract.address], [d]) == Own(net, plan, d)
    ensures OneAddress(Own(net, plan, d), d)
  {
    var i :| 0 <= i < |group| && group[i] == plan;
    assert Addresses(group)[i] == plan.contract.address && Addresses([plan])[0] == plan.contract.address;
    OneOfScan(net.chain, Addresses(group), net.addresses, net.batchSize, key.0, key.1, plan.contract.address, d);
    OneOfScan(net.chain, Addresses([plan]), net.addresses, net.batchSize, key.0, key.1, plan.contract.address, d);
    SelectedGoTo(GroupLogs(net, group, key), plan.contract.address, d);
  }

  lemma {:induction false} SelectedGoTo(logs: seq<Log>, a: string, d: string)
    ensures OneAddress(Select(logs, [a], [d]), d)
    decreases |logs|
  {
    if logs != [] {
      SelectedGoTo(logs[1..], a, d);
    }
  }

  /** The rows of the plan's contract have taken the first of its own logs, all of them if `full`. */
  ghost predicate Advanced(net: Net, x: Desk, was: Books, now: Books, plan: Plan, d: string, full: bool) {
    exists n: nat :: AdvancedBy(net, x, BookOf(was, plan.contract.id, d), BookOf(now, plan.contract.id, d), plan, d,
                                full, n)
  }

  ghost predicate AdvancedBy(net: Net, x: Desk, was: Book, now: Book, plan: Plan, d: string, full: bool,
                             n: nat)
  {
    n <= |Own(net, plan, d)| && (full ==> n == |Own(net, plan, d)|) &&
      now == Fold(x, plan.contract.id, was, Own(net, plan, d)[..n])
  }

  lemma {:induction false} NotAdvanced(net: Net, x: Desk, was: Books, now: Books, plan: Plan, d: string)
    requires BookOf(now, plan.contract.id, d) == BookOf(was, plan.contract.id, d)
    ensures Advanced(net, x, was, now, plan, d, false)
  {
    assert AdvancedBy(net, x, BookOf(was, plan.contract.id, d), BookOf(now, plan.contract.id, d), plan, d, false, 0);
  }

  lemma {:induction false} AdvancedAtAll(net: Net, x: Desk, was: Books, now: Books, plan: Plan, d: string, full: bool)
    requires Advanced(net, x, was, now, plan, d, full)
    ensures Advanced(net, x, was, now, plan, d, false)
  {
    var n: nat :| AdvancedBy(net, x, BookOf(was, plan.contract.id, d), BookOf(now, plan.contract.id, d), plan, d, full,
                             n);
    assert AdvancedBy(net, x, BookOf(was, plan.contract.id, d), BookOf(now, plan.contract.id, d), plan, d, false, n);
  }

  /** Scanning a plan twice, each time completely or not, is scanning it once. */
  lemma {:induction false} AdvancedTwice(net: Net, x: Desk, was: Books, mid: Books, now: Books, plan: Plan, d: string,
                                         f: bool, g: bool)
    requires ValidNet(net) && ValidDesk(x)
    requires Advanced(net, x, was, mid, plan, d, f) && Advanced(net, x, mid, now, plan, d, g)
    ensures Advanced(net, x, was, now, plan, d, f || g)
  {
    var id := plan.contract.id;
    var a: nat :| AdvancedBy(net, x, BookOf(was, id, d), BookOf(mid, id, d), plan, d, f, a);
    var b: nat :| AdvancedBy(net, x, BookOf(mid, id, d), BookOf(now, id, d), plan, d, g, b);
    assert OneRange([plan], KeyOf(plan)) && plan in [plan];
    OwnSubsequence(net, [plan], KeyOf(plan), plan, d);
    AgainChangesNothing(x, id, BookOf(was, id, d), Own(net, plan, d), d, a, b);
    assert AdvancedBy(net, x, BookOf(was, id, d), BookOf(now, id, d), plan, d, f || g, if a <= b then b else a);
  }

  lemma {:induction false} SelectPrefix(logs: seq<Log>, cut: nat, a: string, d: string)
    requires cut <= |logs|
    ensures Select(logs[..cut], [a], [d]) <= Select(logs, [a], [d])
  {
    SelectConcat(logs[..cut], logs[cut..], [a], [d]);
    assert logs == logs[..cut] + logs[cut..];
  }

  /** A scan of a group, cut short or complete, advances each of its plans. */
  lemma {:induction false} ScanAdvances(net: Net, x: Desk, group: seq<Plan>, key: Key, books: Books, cut: nat,
                                        plan: Plan, d: string)
    requires ValidNet(net) && OneRange(group, key) && plan in group && cut <= |GroupLogs(net, group, key)|
    ensures var logs := GroupLogs(net, group, key);
            Advanced(net, x, books, TakeAll(x, Contracts(group), books, logs[..cut]), plan, d, cut == |logs|)
  {
    var logs := GroupLogs(net, group, key);
    var c := plan.contract;
    var i :| 0 <= i < |group| && group[i] == plan;
    assert Contracts(group)[i] == c;
    OwnSubsequence(net, group, key, plan, d);
    TakeAllIsFold(x, Contracts(group), books, logs[..cut], c, d);
    SelectPrefix(logs, cut, c.address, d);
    var part := Select(logs[..cut], [c.address], [d]);
    assert logs[..|logs|] == logs;
    assert Own(net, plan, d)[..|part|] == part;
    assert AdvancedBy(net, x, BookOf(books, c.id, d), BookOf(TakeAll(x, Contracts(group), books, logs[..cut]), c.id, d),
                      plan, d, cut == |logs|, |part|);
  }

  // ----- one contract

  /** Its rows are those of scanning it alone, plan by plan, the completed plans to their end. */
  ghost predicate ScannedAlone(net: Net, x: Desk, env: Env, plans: seq<Plan>, d: string, was: Book,
                               now: Book)
  {
    if plans == [] then now == was
    else
      var last := plans[|plans| - 1];
      exists mid, n: nat :: ScannedAlone(net, x, env, plans[..|plans| - 1], d, was, mid) &&
                       AdvancedBy(net, x, mid, now, last, d, Done(env, last), n)
  }

  lemma {:induction false} OneMorePlan(net: Net, x: Desk, env: Env, plans: seq<Plan>, plan: Plan, d: string,
                                       was: Book, mid: Books, now: Books)
    requires ScannedAlone(net, x, env, plans, d, was, BookOf(mid, plan.contract.id, d))
    requires Advanced(net, x, mid, now, plan, d, Done(env, plan))
    ensures ScannedAlone(net, x, env, plans + [plan], d, was, BookOf(now, plan.contract.id, d))
  {
    var id := plan.contract.id;
    var n: nat :| AdvancedBy(net, x, BookOf(mid, id, d), BookOf(now, id, d), plan, d, Done(env, plan), n);
    OneMorePlanRows(net, x, env, plans, plan, d, was, BookOf(mid, id, d), BookOf(now, id, d), n);
  }

  lemma {:induction false} OneMorePlanRows(net: Net, x: Desk, env: Env, plans: seq<Plan>, plan: Plan, d: string,
                                           was: Book, mid: Book, now: Book, n: nat)
    requires ScannedAlone(net, x, env, plans, d, was, mid) && AdvancedBy(net, x, mid, now, plan, d, Done(env, plan), n)
    ensures ScannedAlone(net, x, env, plans + [plan], d, was, now)
  {
    var all := plans + [plan];
    assert all[..|all| - 1] == plans && all[|all| - 1] == plan;
  }

  /** The rows after all plans of a contract have been scanned to their end. */
  function AloneRows(net: Net, x: Desk, plans: seq<Plan>, d: string, was: Book): Book {
    if plans == [] then was
    else
      var last := plans[|plans| - 1];
      Fold(x, last.contract.id, AloneRows(net, x, plans[..|plans| - 1], d, was), Own(net, last, d))
  }

  /** If all plans of a contract complete, its rows are exactly those. */
  lemma {:induction false} CompleteIsExact(net: Net, x: Desk, env: Env, plans: seq<Plan>, d: string, was: Book,
                                           now: Book)
    requires ScannedAlone(net, x, env, plans, d, was, now) && forall plan | plan in plans :: Done(env, plan)
    ensures now == AloneRows(net, x, plans, d, was)
    decreases |plans|
  {
    if plans != [] {
      var last := plans[|plans| - 1];
      var mid, n: nat :| ScannedAlone(net, x, env, plans[..|plans| - 1], d, was, mid) &&
                    AdvancedBy(net, x, mid, now, last, d, Done(env, last), n);
      CompleteIsExact(net, x, env, plans[..|plans| - 1], d, was, mid);
      assert Own(net, last, d)[..n] == Own(net, last, d);
    }
  }

  // ----- the run over a network

  /** How many of a contract's plans, in their order, belong to the groups handled. */
  function Handled(keys: seq<Key>, plans: seq<Plan>): nat
    ensures Handled(keys, plans) <= |plans|
  {
    if plans == [] then 0
    else if KeyOf(plans[|plans| - 1]) in keys then |plans|
    else Handled(keys, plans[..|plans| - 1])
  }

  lemma {:induction false} NoneHandled(plans: seq<Plan>)
    ensures Handled([], plans) == 0
    decreases |plans|
  {
    if plans != [] {
      NoneHandled(plans[..|plans| - 1]);
    }
  }

  /** All contracts, after the groups handled. */
  ghost predicate BooksFollow(net: Net, x: Desk, env: Env, cfg: IC.Config, contracts: seq<Contract>,
                              cursors: map<string, nat>, latest: int, keys: seq<Key>, was: Books, now: Books)
  {
    && (forall c, d | c in contracts :: RowsFollow(net, x, env, cfg, cursors, latest, keys, was, now, c, d))
    && (forall id, d | !Named(contracts, id) :: BookOf(now, id, d) == BookOf(was, id, d))
  }

  ghost predicate RowsFollow(net: Net, x: Desk, env: Env, cfg: IC.Config, cursors: map<string, nat>, latest: int,
                             keys: seq<Key>, was: Books, now: Books, c: Contract, d: string)
  {
    var plans := PlansFor(cfg, Stored(cursors, c), latest, c);
    ScannedAlone(net, x, env, plans[..Handled(keys, plans)], d, BookOf(was, c.id, d), BookOf(now, c.id, d))
  }

  /** A handled group: its plans have advanced, the rows of other contracts stay. */
  ghost predicate GroupFollows(net: Net, x: Desk, env: Env, group: seq<Plan>, mid: Books, now: Books) {
    && (forall plan, d | plan in group :: Advanced(net, x, mid, now, plan, d, Done(env, plan)))
    && Spared(group, mid, now)
  }

  /** The rows of contracts outside the group are as they were. */
  ghost predicate Spared(group: seq<Plan>, was: Books, now: Books) {
    forall id, d | !Named(Contracts(group), id) :: BookOf(now, id, d) == BookOf(was, id, d)
  }

  /** One of two plans is handled next: its place in the order of both follows from the keys handled before. */
  lemma {:induction false} HandledNext(keys: seq<Key>, key: Key, plans: seq<Plan>)
    requires key !in keys && 1 <= |plans| <= 2
    requires |plans| == 2 ==> KeyOf(plans[0]) != KeyOf(plans[1])
    requires |plans| == 2 && KeyOf(plans[1]) in keys + [key] ==> KeyOf(plans[0]) in keys
    ensures
      var h, h' := Handled(keys, plans), Handled(keys + [key], plans);
      if exists plan :: plan in plans && KeyOf(plan) == key then h < |plans| && h' == h + 1 && KeyOf(plans[h]) == key
      else h' == h
  {
    if |plans| == 1 {
      assert plans == [plans[0]];
    } else {
      assert plans == [plans[0], plans[1]];
    }
  }

  /** Handling a group takes every contract of it one plan further. */
  lemma {:induction false} HandledOneMore(cfg: IC.Config, contracts: seq<Contract>, cursors: map<string, nat>,
                                          latest: int, order: seq<Key>, p: nat, c: Contract)
    requires FirstSeen(AllPlans(cfg, contracts, cursors, latest), order) && p < |order|
    ensures
      var plans := PlansFor(cfg, Stored(cursors, c), latest, c);
      var h, h' := Handled(order[..p], plans), Handled(order[..p + 1], plans);
      if exists plan :: plan in plans && KeyOf(plan) == order[p]
      then h < |plans| && h' == h + 1 && KeyOf(plans[h]) == order[p]
      else h' == h
  {
    var plans := PlansFor(cfg, Stored(cursors, c), latest, c);
    assert order[..p + 1] == order[..p] + [order[p]];
    assert SeenInTurn(AllPlans(cfg, contracts, cursors, latest), order[p], order[..p]);
    if |plans| == 2 && KeyOf(plans[1]) in order[..p] + [order[p]] {
      var q :| 0 <= q <= p && order[q] == KeyOf(plans[1]);
      TipIsVisitedFirst(cfg, contracts, cursors, latest, order, c, q);
      assert order[..q] <= order[..p];
    }
    HandledNext(order[..p], order[p], plans);
  }

  /** A contract with a plan in the group handled: its next plan is scanned. */
  lemma {:induction false} NextPlanFollows(net: Net, x: Desk, env: Env, cfg: IC.Config, contracts: seq<Contract>,
                                           cursors: map<string, nat>, latest: int, order: seq<Key>, p: nat, was: Books,
                                           mid: Books, now: Books, c: Contract, d: string)
    requires FirstSeen(AllPlans(cfg, contracts, cursors, latest), order) && p < |order|
    requires var plans := PlansFor(cfg, Stored(cursors, c), latest, c);
             && (exists plan :: plan in plans && KeyOf(plan) == order[p])
             && forall plan | plan in plans && KeyOf(plan) == order[p] ::
                  Advanced(net, x, mid, now, plan, d, Done(env, plan))
    requires RowsFollow(net, x, env, cfg, cursors, latest, order[..p], was, mid, c, d)
    ensures RowsFollow(net, x, env, cfg, cursors, latest, order[..p + 1], was, now, c, d)
  {
    var plans := PlansFor(cfg, Stored(cursors, c), latest, c);
    var h := Handled(order[..p], plans);
    HandledOneMore(cfg, contracts, cursors, latest, order, p, c);
    assert plans[h] in plans && plans[h].contract == c;
    OneMorePlan(net, x, env, plans[..h], plans[h], d, BookOf(was, c.id, d), mid, now);
    assert plans[..h + 1] == plans[..h] + [plans[h]];
  }

  /** A contract without one: its rows stay. */
  lemma {:induction false} OtherPlanFollows(net: Net, x: Desk, env: Env, cfg: IC.Config, contracts: seq<Contract>,
                                            cursors: map<string, nat>, latest: int, order: seq<Key>, p: nat, was: Books,
                                            mid: Books, now: Books, c: Contract, d: string)
    requires FirstSeen(AllPlans(cfg, contracts, cursors, latest), order) && p < |order|
    requires !exists plan :: plan in PlansFor(cfg, Stored(cursors, c), latest, c) && KeyOf(plan) == order[p]
    requires BookOf(now, c.id, d) == BookOf(mid, c.id, d)
    requires RowsFollow(net, x, env, cfg, cursors, latest, order[..p], was, mid, c, d)
    ensures RowsFollow(net, x, env, cfg, cursors, latest, order[..p + 1], was, now, c, d)
  {
    HandledOneMore(cfg, contracts, cursors, latest, order, p, c);
  }

  /** A contract named in the group has a plan there. */
  lemma {:induction false} NamedHasAPlan(cfg: IC.Config, contracts: seq<Contract>, cursors: map<string, nat>,
                                         latest: int, group: seq<Plan>, key: Key, c: Contract)
    requires Coherent(contracts) && c in contracts && Named(Contracts(group), c.id)
    requires forall plan | plan in group :: plan in AllPlans(cfg, contracts, cursors, latest) && KeyOf(plan) == key
    ensures exists plan :: plan in PlansFor(cfg, Stored(cursors, c), latest, c) && KeyOf(plan) == key
  {
    var i :| 0 <= i < |group| && group[i].contract.id == c.id;
    assert group[i] in group;
    PlansAre(cfg, contracts, cursors, latest, group[i]);
  }

  lemma {:induction false} RowsFollowOn(net: Net, x: Desk, env: Env, cfg: IC.Config, contracts: seq<Contract>,
                                        cursors: map<string, nat>, latest: int, order: seq<Key>, p: nat,
                                        group: seq<Plan>, was: Books, mid: Books, now: Books, c: Contract, d: string)
    requires Coherent(contracts) && c in contracts
    requires FirstSeen(AllPlans(cfg, contracts, cursors, latest), order) && p < |order|
    requires forall plan :: plan in group <==>
             plan in AllPlans(cfg, contracts, cursors, latest) && KeyOf(plan) == order[p]
    requires GroupFollows(net, x, env, group, mid, now)
    requires RowsFollow(net, x, env, cfg, cursors, latest, order[..p], was, mid, c, d)
    ensures RowsFollow(net, x, env, cfg, cursors, latest, order[..p + 1], was, now, c, d)
  {
    var plans := PlansFor(cfg, Stored(cursors, c), latest, c);
    if exists plan :: plan in plans && KeyOf(plan) == order[p] {
      forall plan | plan in plans && KeyOf(plan) == order[p]
        ensures Advanced(net, x, mid, now, plan, d, Done(env, plan))
      {
        PlansAre(cfg, contracts, cursors, latest, plan);
        assert plan in group;
      }
      NextPlanFollows(net, x, env, cfg, contracts, cursors, latest, order, p, was, mid, now, c, d);
    } else {
      if Named(Contracts(group), c.id) {
        NamedHasAPlan(cfg, contracts, cursors, latest, group, order[p], c);
      }
      OtherPlanFollows(net, x, env, cfg, contracts, cursors, latest, order, p, was, mid, now, c, d);
    }
  }

  lemma {:induction false} BooksFollowOn(net: Net, x: Desk, env: Env, cfg: IC.Config, contracts: seq<Contract>,
                                         cursors: map<string, nat>, latest: int, order: seq<Key>, p: nat,
                                         group: seq<Plan>, was: Books, mid: Books, now: Books)
    requires Coherent(contracts)
    requires FirstSeen(AllPlans(cfg, contracts, cursors, latest), order) && p < |order|
    requires forall plan :: plan in group <==>
             plan in AllPlans(cfg, contracts, cursors, latest) && KeyOf(plan) == order[p]
    requires GroupFollows(net, x, env, group, mid, now)
    requires BooksFollow(net, x, env, cfg, contracts, cursors, latest, order[..p], was, mid)
    ensures BooksFollow(net, x, env, cfg, contracts, cursors, latest, order[..p + 1], was, now)
  {
    var keys := order[..p + 1];
    forall c, d | c in contracts ensures RowsFollow(net, x, env, cfg, cursors, latest, keys, was, now, c, d) {
      RowsFollowOn(net, x, env, cfg, contracts, cursors, latest, order, p, group, was, mid, now, c, d);
    }
    forall id, d | !Named(contracts, id) ensures BookOf(now, id, d) == BookOf(was, id, d) {
      if Named(Contracts(group), id) {
        var i :| 0 <= i < |group| && group[i].contract.id == id;
        assert group[i] in group;
        PlansAre(cfg, contracts, cursors, latest, group[i]);
      }
      assert BookOf(mid, id, d) == BookOf(was, id, d);
    }
  }

  /** A group of plans for coherent contracts has one range. */
  lemma {:induction false} GroupHasOneRange(cfg: IC.Config, contracts: seq<Contract>, cursors: map<string, nat>,
                                            latest: int, group: seq<Plan>, key: Key)
    requires Coherent(contracts) && group != []
    requires forall plan | plan in group :: KeyOf(plan) == key && plan in AllPlans(cfg, contracts, cursors, latest)
    ensures OneRange(group, key)
  {
    forall i | 0 <= i < |group| ensures group[i].contract in contracts && KeyOf(group[i]) == key {
      assert group[i] in group;
      PlansAre(cfg, contracts, cursors, latest, group[i]);
    }
    forall i, j | 0 <= i < |group| && 0 <= j < |group| &&
                  (group[i].contract.address == group[j].contract.address ||
                   group[i].contract.id == group[j].contract.id)
      ensures group[i].contract == group[j].contract
    {
      var p :| 0 <= p < |contracts| && contracts[p] == group[i].contract;
      var q :| 0 <= q < |contracts| && contracts[q] == group[j].contract;
    }
  }

  /** The rows of a contract at an address: of some of its plans in their order, or of all of them. */
  ghost predicate RowsAlone(net: Net, x: Desk, env: Env, plans: seq<Plan>, all: bool, was: Books, now: Books,
                            c: Contract, d: string)
  {
    exists h: nat :: RowsOfPlans(net, x, env, plans, all, was, now, c, d, h)
  }

  ghost predicate RowsOfPlans(net: Net, x: Desk, env: Env, plans: seq<Plan>, all: bool, was: Books, now: Books,
                              c: Contract, d: string, h: nat)
  {
    h <= |plans| && (all ==> h == |plans|) &&
      ScannedAlone(net, x, env, plans[..h], d, BookOf(was, c.id, d), BookOf(now, c.id, d))
  }

  /** If all plans of a contract were reached and completed, its rows are those of scanning it alone. */
  lemma {:induction false} BatchedIsAlone(net: Net, x: Desk, env: Env, plans: seq<Plan>, was: Books, now: Books,
                                          c: Contract, d: string)
    requires RowsAlone(net, x, env, plans, true, was, now, c, d) && forall plan | plan in plans :: Done(env, plan)
    ensures BookOf(now, c.id, d) == AloneRows(net, x, plans, d, BookOf(was, c.id, d))
  {
    assert plans[..|plans|] == plans;
    CompleteIsExact(net, x, env, plans, d, BookOf(was, c.id, d), BookOf(now, c.id, d));
  }

  /** What the groups handled leave for a contract: all its plans if its cursor plan is among them. */
  lemma {:induction false} FollowedAlone(net: Net, x: Desk, env: Env, cfg: IC.Config, cursors: map<string, nat>,
                                         latest: int, keys: seq<Key>, was: Books, now: Books, c: Contract, d: string,
                                         all: bool)
    requires RowsFollow(net, x, env, cfg, cursors, latest, keys, was, now, c, d)
    requires all ==> KeyOf(CursorPlan(cfg, Stored(cursors, c), latest, c)) in keys
    ensures RowsAlone(net, x, env, PlansFor(cfg, Stored(cursors, c), latest, c), all, was, now, c, d)
  {
    var plans := PlansFor(cfg, Stored(cursors, c), latest, c);
    assert plans[|plans| - 1] == CursorPlan(cfg, Stored(cursors, c), latest, c);
    assert RowsOfPlans(net, x, env, plans, all, was, now, c, d, Handled(keys, plans));
  }

  // ----- the fallback

  /** In the fallback: the plans done alone have advanced to their end, the others by what the batch recorded. */
  ghost predicate EachUpTo(net: Net, x: Desk, env: Env, group: seq<Plan>, done: seq<Plan>, was: Books, now: Books) {
    && (forall plan, d | plan in group :: UpTo(net, x, env, done, was, now, plan, d))
    && Spared(group, was, now)
  }

  ghost predicate UpTo(net: Net, x: Desk, env: Env, done: seq<Plan>, was: Books, now: Books, plan: Plan, d: string) {
    Advanced(net, x, was, now, plan, d, plan in done && env.aloneOk(plan))
  }

  lemma {:induction false} OnePlanOn(net: Net, x: Desk, env: Env, group: seq<Plan>, i: nat, was: Books, mid: Books,
                                     now: Books, plan: Plan, d: string)
    requires ValidNet(net) && ValidDesk(x) && i < |group| && UpTo(net, x, env, group[..i], was, mid, plan, d)
    requires plan.contract.id == group[i].contract.id ==>
               plan == group[i] && Advanced(net, x, mid, now, plan, d, env.aloneOk(plan))
    requires plan.contract.id != group[i].contract.id ==>
               BookOf(now, plan.contract.id, d) == BookOf(mid, plan.contract.id, d)
    ensures UpTo(net, x, env, group[..i + 1], was, now, plan, d)
  {
    assert group[..i + 1] == group[..i] + [group[i]];
    var f := plan in group[..i] && env.aloneOk(plan);
    if plan.contract.id == group[i].contract.id {
      AdvancedTwice(net, x, was, mid, now, plan, d, f, env.aloneOk(plan));
    } else {
      NotAdvanced(net, x, mid, now, plan, d);
      AdvancedTwice(net, x, was, mid, now, plan, d, f, false);
    }
  }

  lemma {:induction false} SameIdSamePlan(group: seq<Plan>, key: Key, p: Plan, q: Plan)
    requires OneRange(group, key) && p in group && q in group && p.contract.id == q.contract.id
    ensures p == q
  {
    var i :| 0 <= i < |group| && group[i] == p;
    var j :| 0 <= j < |group| && group[j] == q;
    assert Contracts(group)[i] == p.contract && Contracts(group)[j] == q.contract;
  }

  /** One contract of the fallback scanned: its plan goes on, the others stay. */
  lemma {:induction false} OneScanned(net: Net, x: Desk, key: Key, group: seq<Plan>, i: nat, env: Env, was: Books,
                                      mid: Books, now: Books)
    requires ValidNet(net) && ValidDesk(x) && OneRange(group, key)
    requires i < |group| && EachUpTo(net, x, env, group, group[..i], was, mid)
    requires forall plan, d | plan in [group[i]] :: Advanced(net, x, mid, now, plan, d, env.aloneOk(group[i]))
    requires Spared([group[i]], mid, now)
    ensures EachUpTo(net, x, env, group, group[..i + 1], was, now)
  {
    var one := group[i];
    assert one in [one] && one in group && Contracts([one]) == [one.contract];
    forall id | id != one.contract.id ensures !Named(Contracts([one]), id) {
    }
    var upto := group[..i + 1];
    forall plan, d | plan in group ensures UpTo(net, x, env, upto, was, now, plan, d) {
      assert UpTo(net, x, env, group[..i], was, mid, plan, d);
      if plan.contract.id == one.contract.id {
        SameIdSamePlan(group, key, plan, one);
      }
      OnePlanOn(net, x, env, group, i, was, mid, now, plan, d);
    }
    assert Contracts(group)[i] == one.contract;
    forall id, d | !Named(Contracts(group), id) ensures BookOf(now, id, d) == BookOf(was, id, d) {
      assert one.contract in Contracts(group);
      assert BookOf(now, id, d) == BookOf(mid, id, d);
    }
  }

  lemma {:induction false} EndOfFallback(net: Net, x: Desk, key: Key, env: Env, group: seq<Plan>, was: Books,
                                         now: Books)
    requires OneRange(group, key) && !env.batchOk(key) && EachUpTo(net, x, env, group, group, was, now)
    ensures GroupFollows(net, x, env, group, was, now)
  {
    forall plan, d | plan in group ensures Advanced(net, x, was, now, plan, d, Done(env, plan)) {
      assert UpTo(net, x, env, group, was, now, plan, d);
    }
  }
}
