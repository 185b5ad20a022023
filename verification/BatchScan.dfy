/**
 * Scanning the ERC20 contracts of a network together: plans with the same range share one query, a failed
 * query falls back to one per contract, and cursors move only for completed plans.
 */
module BatchScan {
  import opened Wrappers
  import opened LogQueries
  import opened DetectionFold
  import opened BatchPlans
  import opened BatchRows
  import opened BatchCursors
  import TD = TrackedDeposits
  import IC = IndexerCursor

  /**
   * A contract after the run.  Its cursor is that of a run over it alone.  Its rows at every address are those of
   * scanning it alone, of all its plans unless the run stopped before, which it did not if the cursor has moved.
   */
  ghost predicate Settled(net: Net, x: Desk, env: Env, cfg: IC.Config, blocks: seq<IC.Block>, from: map<string, nat>,
                          now: map<string, nat>, was: Books, books: Books, c: Contract, stopped: bool)
    requires IC.ValidConfig(cfg) && |blocks| >= 2
  {
    var plans := PlansFor(cfg, Stored(from, c), IC.Tip(blocks), c);
    var all := !stopped || !SameEntry(from, now, c.id);
    AsAlone(cfg, from, now, blocks, env, c, stopped) && forall d :: RowsAlone(net, x, env, plans, all, was, books, c, d)
  }

  /** All contracts, after the groups with these keys; `stopped`: a cursor write of the last of them has thrown. */
  ghost predicate Reached(net: Net, x: Desk, env: Env, cfg: IC.Config, contracts: seq<Contract>, latest: int,
                          keys: seq<Key>, from: map<string, nat>, now: map<string, nat>, was: Books, books: Books,
                          stopped: bool)
  {
    var plans := AllPlans(cfg, contracts, from, latest);
    && BooksFollow(net, x, env, cfg, contracts, from, latest, keys, was, books)
    && CursorsKept(from, now, plans, keys, env)
    && (!stopped ==> CursorsFollow(from, now, plans, keys, env))
    && (stopped <==> exists plan :: Unwritten(plans, keys, env, plan))
  }

  lemma {:induction false} NothingReached(net: Net, x: Desk, env: Env, cfg: IC.Config, contracts: seq<Contract>,
                                          latest: int, cursors: map<string, nat>, books: Books)
    ensures Reached(net, x, env, cfg, contracts, latest, [], cursors, cursors, books, books, false)
  {
    forall c, d | c in contracts ensures RowsFollow(net, x, env, cfg, cursors, latest, [], books, books, c, d) {
      var plans := PlansFor(cfg, Stored(cursors, c), latest, c);
      NoneHandled(plans);
    }
  }

  lemma {:induction false} SettledAlone(net: Net, x: Desk, env: Env, cfg: IC.Config, contracts: seq<Contract>,
                                        blocks: seq<IC.Block>, keys: seq<Key>, from: map<string, nat>,
                                        now: map<string, nat>, was: Books, books: Books, c: Contract, stopped: bool)
    requires IC.ValidConfig(cfg) && |blocks| >= 2 && Coherent(contracts) && c in contracts
    requires Reached(net, x, env, cfg, contracts, IC.Tip(blocks), keys, from, now, was, books, stopped)
    requires !stopped ==> forall plan | plan in AllPlans(cfg, contracts, from, IC.Tip(blocks)) :: KeyOf(plan) in keys
    ensures Settled(net, x, env, cfg, blocks, from, now, was, books, c, stopped)
  {
    var latest := IC.Tip(blocks);
    var plans := PlansFor(cfg, Stored(from, c), latest, c);
    var all := !stopped || !SameEntry(from, now, c.id);
    KeptAsAlone(cfg, contracts, from, now, blocks, keys, env, c);
    CursorPlanIsPlanned(cfg, contracts, from, latest, c);
    if !stopped {
      FollowedAsAlone(cfg, contracts, from, now, blocks, keys, env, c);
    }
    forall d ensures RowsAlone(net, x, env, plans, all, was, books, c, d) {
      FollowedAlone(net, x, env, cfg, from, latest, keys, was, books, c, d, all);
    }
  }

  class BatchScanner {
    var books: Books
    var cursors: map<string, nat>

    constructor ()
      ensures books == map[] && cursors == map[]
    {
      books, cursors := map[], map[];
    }

    /** The logs of a scan one after another: matched to their contract, skipped or recorded. */
    method RecordLogs(x: Desk, targets: seq<Contract>, logs: seq<Log>)
      modifies this`books
      ensures books == TakeAll(x, targets, old(books), logs)
    {
      for i := 0 to |logs|
        invariant books == TakeAll(x, targets, old(books), logs[..i])
      {
        var log := logs[i];
        assert logs[..i + 1][..i] == logs[..i];
        var target := TargetOf(targets, log.contract);
        if target.Some? {
          var book := BookOf(books, target.value, log.destination);
          var rows, relink := book.rows, x.relink(log, book.seen);
          if x.personal(log.destination) {
            var tracked := SumTracked(rows);
            var onChain := x.balance(target.value, log);
            if !TD.ShouldSkipDetection(tracked, log.amount, onChain) && !x.internal(log) {
              rows := TD.RecordDetectedDeposit(rows, TD.FromLog(log.id), log.amount, relink);
            }
          } else {
            rows := TD.RecordDetectedDeposit(rows, TD.FromLog(log.id), log.amount, relink);
          }
          books := books[(target.value, log.destination) := Book(rows, See(book.seen, log))];
        }
      }
      assert logs[..|logs|] == logs;
    }

    method SumTracked(rows: seq<TD.Row>) returns (sum: nat)
      ensures sum == TD.SumTrackedRawDeposits(rows)
    {
      sum := 0;
      for i := 0 to |rows|
        invariant sum == TD.SumTrackedRawDeposits(rows[..i])
      {
        TD.TrackedSnoc(rows[..i], rows[i]);
        assert rows[..i + 1] == rows[..i] + [rows[i]];
        if rows[i].counted {
          sum := sum + rows[i].amount;
        }
      }
      assert rows[..|rows|] == rows;
    }

    /** One scan of a group: all its logs, or the first few before it throws. */
    method ScanTargets(net: Net, x: Desk, group: seq<Plan>, key: Key, ok: bool, cut: nat)
      requires ValidNet(net) && OneRange(group, key)
      modifies this`books
      ensures forall plan, d | plan in group :: Advanced(net, x, old(books), books, plan, d, ok)
      ensures Spared(group, old(books), books)
    {
      var logs := GroupLogs(net, group, key);
      var end := if ok then |logs| else Least(cut, |logs|);
      RecordLogs(x, Contracts(group), logs[..end]);
      forall plan, d | plan in group ensures Advanced(net, x, old(books), books, plan, d, ok) {
        ScanAdvances(net, x, group, key, old(books), end, plan, d);
        AdvancedAtAll(net, x, old(books), books, plan, d, end == |logs|);
      }
      forall id, d | !Named(Contracts(group), id) ensures BookOf(books, id, d) == BookOf(old(books), id, d) {
        TakeAllSpares(x, Contracts(group), old(books), logs[..end], id, d);
      }
    }

    /** One group: the batch, or its contracts one by one; answers the completed plans. */
    method ScanGroup(net: Net, x: Desk, key: Key, group: seq<Plan>, env: Env) returns (completed: seq<Plan>)
      requires ValidNet(net) && ValidDesk(x) && OneRange(group, key)
      modifies this`books
      ensures GroupFollows(net, x, env, group, old(books), books)
      ensures forall plan :: plan in completed <==> plan in group && Done(env, plan)
    {
      assert forall plan | plan in group :: KeyOf(plan) == key;
      ScanTargets(net, x, group, key, env.batchOk(key), env.batchCut(key));
      if env.batchOk(key) {
        return group;
      }
      completed := ScanEach(net, x, key, group, env, old(books));
    }

    /** The fallback: each contract alone, after a batch that was cut short. */
    method ScanEach(net: Net, x: Desk, key: Key, group: seq<Plan>, env: Env, ghost was: Books)
      returns (completed: seq<Plan>)
      requires ValidNet(net) && ValidDesk(x) && OneRange(group, key) && !env.batchOk(key)
      requires EachUpTo(net, x, env, group, [], was, books)
      modifies this`books
      ensures GroupFollows(net, x, env, group, was, books)
      ensures forall plan :: plan in completed <==> plan in group && Done(env, plan)
    {
      completed := [];
      for i := 0 to |group|
        invariant EachUpTo(net, x, env, group, group[..i], was, books)
        invariant forall plan :: plan in completed <==> plan in group[..i] && env.aloneOk(plan)
      {
        var plan := group[i];
        ghost var mid := books;
        assert group[..i + 1] == group[..i] + [plan];
        ScanTargets(net, x, [plan], key, env.aloneOk(plan), env.aloneCut(plan));
        OneScanned(net, x, key, group, i, env, was, mid, books);
        if env.aloneOk(plan) {
          completed := completed + [plan];
        }
      }
      assert group[..|group|] == group;
      EndOfFallback(net, x, key, env, group, was, books);
    }

    /** Moves the cursors of the completed plans that ask for it, until a write throws. */
    method AdvanceCursors(completed: seq<Plan>, key: Key, env: Env) returns (ok: bool)
      requires key.1 >= 0 && forall plan | plan in completed :: KeyOf(plan) == key
      modifies this`cursors
      ensures Written(old(cursors), cursors, completed, key, ok)
      ensures ok <==> forall plan | plan in completed && plan.advancesCursor :: env.cursorOk(plan)
    {
      for i := 0 to |completed|
        invariant Written(old(cursors), cursors, completed[..i], key, true)
        invariant forall plan | plan in completed[..i] && plan.advancesCursor :: env.cursorOk(plan)
      {
        var plan := completed[i];
        assert completed[..i + 1] == completed[..i] + [plan];
        assert plan in completed && plan.to == key.1;
        if plan.advancesCursor {
          if !env.cursorOk(plan) {
            return false;
          }
          cursors := cursors[plan.contract.id := plan.to];
        }
      }
      assert completed[..|completed|] == completed;
      ok := true;
    }

    /** One group: scanned, then the cursors of its completed plans moved. */
    method HandleGroup(net: Net, x: Desk, env: Env, group: seq<Plan>, ghost cfg: IC.Config,
                       ghost contracts: seq<Contract>, ghost latest: int, ghost order: seq<Key>, ghost p: nat,
                       ghost from: map<string, nat>, ghost was: Books)
      returns (ok: bool)
      requires ValidNet(net) && ValidDesk(x) && Coherent(contracts) && IC.ValidConfig(cfg) && latest >= 0
      requires GroupInTurn(cfg, contracts, from, latest, order, p, group)
      requires Reached(net, x, env, cfg, contracts, latest, order[..p], from, cursors, was, books, false)
      modifies this
      ensures Reached(net, x, env, cfg, contracts, latest, order[..p + 1], from, cursors, was, books, !ok)
    {
      ghost var plans := AllPlans(cfg, contracts, from, latest);
      var key := KeyOf(group[0]);
      assert group[0] in group && order[..p + 1] == order[..p] + [key];
      GroupHasOneRange(cfg, contracts, from, latest, group, key);
      PlansEndAboveZero(cfg, contracts, from, latest, group[0]);
      ghost var before, mid := books, cursors;
      var completed := ScanGroup(net, x, key, group, env);
      BooksFollowOn(net, x, env, cfg, contracts, from, latest, order, p, group, was, before, books);
      ok := AdvanceCursors(completed, key, env);
      CursorsKeptOn(from, mid, cursors, plans, order[..p], key, env, completed);
      UnwrittenNow(plans, order[..p], key, env, group);
      if ok {
        CursorsFollowOn(cfg, contracts, from, mid, cursors, latest, order[..p], key, env, completed);
      }
    }

    /** The groups in the order of their keys, until a cursor write throws. */
    method HandleGroups(net: Net, x: Desk, env: Env, groups: map<Key, seq<Plan>>, order: seq<Key>,
                        ghost cfg: IC.Config, ghost contracts: seq<Contract>, ghost latest: int)
      returns (stopped: bool, ghost keys: seq<Key>)
      requires ValidNet(net) && ValidDesk(x) && Coherent(contracts) && IC.ValidConfig(cfg) && latest >= 0
      requires forall key | key in order :: key in groups
      requires Grouped(AllPlans(cfg, contracts, cursors, latest), groups)
      requires FirstSeen(AllPlans(cfg, contracts, cursors, latest), order)
      modifies this
      ensures Reached(net, x, env, cfg, contracts, latest, keys, old(cursors), cursors, old(books), books, stopped)
      ensures !stopped ==> keys == order
    {
      var p := 0;
      stopped, keys := false, [];
      NothingReached(net, x, env, cfg, contracts, latest, cursors, books);
      while p < |order| && !stopped
        invariant p <= |order| && keys == order[..p]
        invariant Reached(net, x, env, cfg, contracts, latest, keys, old(cursors), cursors, old(books), books, stopped)
        decreases |order| - p
      {
        assert order[p] in order;
        var ok := HandleGroup(net, x, env, groups[order[p]], cfg, contracts, latest, order, p, old(cursors),
                              old(books));
        p, stopped := p + 1, !ok;
        keys := order[..p];
      }
    }

    /**
     * A run over the ERC20 contracts of a network.  Whatever scans fail, every contract is left as scanning it
     * alone leaves it, and other contracts as they were.  The run stops iff a cursor write throws.
     */
    method ScanConfiguredErc20ContractGroups(cfg: IC.Config, contracts: seq<Contract>, net: Net, x: Desk,
                                             blocks: seq<IC.Block>, env: Env)
      returns (stopped: bool)
      requires IC.ValidConfig(cfg) && |blocks| >= 2 && ValidNet(net) && ValidDesk(x) && Coherent(contracts)
      modifies this
      ensures forall c | c in contracts ::
        Settled(net, x, env, cfg, blocks, old(cursors), cursors, old(books), books, c, stopped)
      ensures forall id | !Named(contracts, id) ::
        SameEntry(old(cursors), cursors, id) && forall d :: BookOf(books, id, d) == BookOf(old(books), id, d)
      ensures stopped <==> exists c :: c in contracts && WriteThrows(cfg, old(cursors), IC.Tip(blocks), env, c)
    {
      var plans := BuildPlans(cfg, contracts, cursors, IC.Tip(blocks));
      var groups, order := GroupPlans(plans);
      ghost var keys;
      stopped, keys := HandleGroups(net, x, env, groups, order, cfg, contracts, IC.Tip(blocks));
      StopsAtAThrow(cfg, contracts, old(cursors), IC.Tip(blocks), keys, env, stopped);
      forall c | c in contracts
        ensures Settled(net, x, env, cfg, blocks, old(cursors), cursors, old(books), books, c, stopped)
      {
        SettledAlone(net, x, env, cfg, contracts, blocks, keys, old(cursors), cursors, old(books), books, c, stopped);
      }
      forall id | !Named(contracts, id) ensures SameEntry(old(cursors), cursors, id) {
        UnnamedIsKept(cfg, contracts, old(cursors), cursors, IC.Tip(blocks), keys, env, id);
      }
    }
  }
}
