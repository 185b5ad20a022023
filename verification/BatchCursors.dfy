/**
 * The cursors after a run over the contracts of a network: each stands where a run over its contract alone
 * leaves it.
 */
module BatchCursors {
  import opened Wrappers
  import opened DetectionFold
  import opened BatchPlans
  import IC = IndexerCursor

  /** A completed plan, of a group already handled, that moves the cursor of its contract. */
  ghost predicate Mover(plans: seq<Plan>, keys: seq<Key>, env: Env, plan: Plan) {
    plan in plans && KeyOf(plan) in keys && plan.advancesCursor && Done(env, plan)
  }

  ghost predicate Moves(plans: seq<Plan>, keys: seq<Key>, env: Env, id: string) {
    exists plan :: Mover(plans, keys, env, plan) && plan.contract.id == id
  }

  ghost predicate SameEntry(a: map<string, nat>, b: map<string, nat>, id: string) {
    (id in a <==> id in b) && (id in a ==> a[id] == b[id])
  }

  ghost predicate CursorsFollow(was: map<string, nat>, now: map<string, nat>, plans: seq<Plan>, keys: seq<Key>,
                                env: Env)
  {
    && (forall plan | Mover(plans, keys, env, plan) :: plan.contract.id in now && now[plan.contract.id] == plan.to)
    && (forall id | !Moves(plans, keys, env, id) :: SameEntry(was, now, id))
  }

  /** No cursor has moved but to the end of a completed plan of its own, in a group already handled. */
  ghost predicate CursorsKept(was: map<string, nat>, now: map<string, nat>, plans: seq<Plan>, keys: seq<Key>, env: Env)
  {
    forall id :: SameEntry(was, now, id) || MovedToPlan(now, plans, keys, env, id)
  }

  ghost predicate MovedToPlan(now: map<string, nat>, plans: seq<Plan>, keys: seq<Key>, env: Env, id: string) {
    exists plan :: Mover(plans, keys, env, plan) && plan.contract.id == id && id in now && now[id] == plan.to
  }

  /** Two moving plans with one contract id are one plan. */
  lemma {:induction false} MoversAgree(cfg: IC.Config, contracts: seq<Contract>, cursors: map<string, nat>, latest: int,
                                       p: Plan, q: Plan)
    requires Coherent(contracts)
    requires p in AllPlans(cfg, contracts, cursors, latest) && q in AllPlans(cfg, contracts, cursors, latest)
    requires p.advancesCursor && q.advancesCursor && p.contract.id == q.contract.id
    ensures p == q
  {
    PlansAre(cfg, contracts, cursors, latest, p);
    PlansAre(cfg, contracts, cursors, latest, q);
  }

  ghost predicate MovedBy(completed: seq<Plan>, id: string) {
    exists plan :: plan in completed && plan.advancesCursor && plan.contract.id == id
  }

  /** The cursor writes of one group: all of them, or only some. */
  ghost predicate Written(mid: map<string, nat>, now: map<string, nat>, completed: seq<Plan>, key: Key, all: bool) {
    forall id ::
      if MovedBy(completed, id)
      then (id in now && now[id] == key.1) || (!all && SameEntry(mid, now, id))
      else SameEntry(mid, now, id)
  }

  /** The completed plans of a group, as a list. */
  ghost predicate CompletedOf(completed: seq<Plan>, plans: seq<Plan>, key: Key, env: Env) {
    forall plan :: plan in completed <==> plan in plans && KeyOf(plan) == key && Done(env, plan)
  }

  lemma {:induction false} CursorsFollowOn(cfg: IC.Config, contracts: seq<Contract>, was: map<string, nat>,
                                           mid: map<string, nat>, now: map<string, nat>, latest: int, keys: seq<Key>,
                                           key: Key, env: Env, completed: seq<Plan>)
    requires Coherent(contracts)
    requires var plans := AllPlans(cfg, contracts, was, latest);
             CursorsFollow(was, mid, plans, keys, env) && CompletedOf(completed, plans, key, env)
    requires Written(mid, now, completed, key, true)
    ensures CursorsFollow(was, now, AllPlans(cfg, contracts, was, latest), keys + [key], env)
  {
    var plans := AllPlans(cfg, contracts, was, latest);
    forall plan | Mover(plans, keys + [key], env, plan)
      ensures plan.contract.id in now && now[plan.contract.id] == plan.to
    {
      if q :| q in completed && q.advancesCursor && q.contract.id == plan.contract.id {
        MoversAgree(cfg, contracts, was, latest, plan, q);
        assert MovedBy(completed, plan.contract.id);
      } else {
        assert Mover(plans, keys, env, plan);
        assert SameEntry(mid, now, plan.contract.id);
      }
    }
    forall id | !Moves(plans, keys + [key], env, id) ensures SameEntry(was, now, id) {
      assert forall plan :: Mover(plans, keys, env, plan) ==> Mover(plans, keys + [key], env, plan);
      assert !Moves(plans, keys, env, id);
      if q :| q in completed && q.advancesCursor && q.contract.id == id {
        assert Mover(plans, keys + [key], env, q);
      }
    }
  }

  lemma {:induction false} CursorsKeptOn(was: map<string, nat>, mid: map<string, nat>, now: map<string, nat>,
                                         plans: seq<Plan>, keys: seq<Key>, key: Key, env: Env, completed: seq<Plan>)
    requires key.1 >= 0 && CursorsKept(was, mid, plans, keys, env) && CompletedOf(completed, plans, key, env)
    requires Written(mid, now, completed, key, false)
    ensures CursorsKept(was, now, plans, keys + [key], env)
  {
    forall id ensures SameEntry(was, now, id) || MovedToPlan(now, plans, keys + [key], env, id) {
      if SameEntry(mid, now, id) {
        if p :| Mover(plans, keys, env, p) && p.contract.id == id && id in mid && mid[id] == p.to {
          assert Mover(plans, keys + [key], env, p);
        } else {
          assert !MovedToPlan(mid, plans, keys, env, id);
        }
      } else {
        var plan :| plan in completed && plan.advancesCursor && plan.contract.id == id;
        assert Mover(plans, keys + [key], env, plan);
      }
    }
  }

  /** Where a run over the contract alone would leave its cursor. */
  function CursorAlone(cfg: IC.Config, stored: nat, chain: seq<IC.Block>): nat
    requires IC.ValidConfig(cfg) && |chain| >= 2
  {
    IC.RunOnce(cfg, IC.Index(stored, None, []), IC.Visit(chain, IC.Complete)).cursor
  }

  /**
   * The cursor of a contract stands where a completed run over it alone leaves it, or has not moved; the first
   * only if its plan completed, the second then only if the run stopped.
   */
  predicate AsAlone(cfg: IC.Config, was: map<string, nat>, now: map<string, nat>, blocks: seq<IC.Block>, env: Env,
                    c: Contract, stopped: bool)
    requires IC.ValidConfig(cfg) && |blocks| >= 2
  {
    var done := Done(env, CursorPlan(cfg, Stored(was, c), IC.Tip(blocks), c));
    || (done && Stored(now, c) == CursorAlone(cfg, Stored(was, c), blocks))
    || ((!done || stopped) && Stored(now, c) == Stored(was, c))
  }

  lemma {:induction false} KeptAsAlone(cfg: IC.Config, contracts: seq<Contract>, was: map<string, nat>,
                                       now: map<string, nat>, blocks: seq<IC.Block>, keys: seq<Key>, env: Env,
                                       c: Contract)
    requires IC.ValidConfig(cfg) && |blocks| >= 2 && Coherent(contracts) && c in contracts
    requires CursorsKept(was, now, AllPlans(cfg, contracts, was, IC.Tip(blocks)), keys, env)
    ensures AsAlone(cfg, was, now, blocks, env, c, true)
    ensures !SameEntry(was, now, c.id) ==> KeyOf(CursorPlan(cfg, Stored(was, c), IC.Tip(blocks), c)) in keys
  {
    var latest := IC.Tip(blocks);
    var plans := AllPlans(cfg, contracts, was, latest);
    CursorPlanIsPlanned(cfg, contracts, was, latest, c);
    if p :| Mover(plans, keys, env, p) && p.contract.id == c.id && c.id in now && now[c.id] == p.to {
      MoversAgree(cfg, contracts, was, latest, p, CursorPlan(cfg, Stored(was, c), latest, c));
    } else {
      assert !MovedToPlan(now, plans, keys, env, c.id);
    }
  }

  lemma {:induction false} FollowedAsAlone(cfg: IC.Config, contracts: seq<Contract>, was: map<string, nat>,
                                           now: map<string, nat>, blocks: seq<IC.Block>, keys: seq<Key>, env: Env,
                                           c: Contract)
    requires IC.ValidConfig(cfg) && |blocks| >= 2 && Coherent(contracts) && c in contracts
    requires var plans := AllPlans(cfg, contracts, was, IC.Tip(blocks));
             CursorsFollow(was, now, plans, keys, env) && forall plan | plan in plans :: KeyOf(plan) in keys
    ensures AsAlone(cfg, was, now, blocks, env, c, false)
  {
    var latest := IC.Tip(blocks);
    var plans := AllPlans(cfg, contracts, was, latest);
    var plan := CursorPlan(cfg, Stored(was, c), latest, c);
    CursorPlanIsPlanned(cfg, contracts, was, latest, c);
    if Done(env, plan) {
      assert Mover(plans, keys, env, plan);
    } else {
      if q :| Mover(plans, keys, env, q) && q.contract.id == c.id {
        MoversAgree(cfg, contracts, was, latest, plan, q);
      }
      assert !Moves(plans, keys, env, c.id);
    }
  }

  lemma {:induction false} UnnamedIsKept(cfg: IC.Config, contracts: seq<Contract>, was: map<string, nat>,
                                         now: map<string, nat>, latest: int, keys: seq<Key>, env: Env, id: string)
    requires CursorsKept(was, now, AllPlans(cfg, contracts, was, latest), keys, env) && !Named(contracts, id)
    ensures SameEntry(was, now, id)
  {
    var plans := AllPlans(cfg, contracts, was, latest);
    if p :| p in plans && p.contract.id == id {
      PlansAre(cfg, contracts, was, latest, p);
    }
  }

  /** A completed plan of a handled group whose cursor write throws. */
  ghost predicate Unwritten(plans: seq<Plan>, keys: seq<Key>, env: Env, plan: Plan) {
    Mover(plans, keys, env, plan) && !env.cursorOk(plan)
  }

  /** One more group: a write throws in it, or in none of the groups so far. */
  lemma {:induction false} UnwrittenNow(plans: seq<Plan>, keys: seq<Key>, key: Key, env: Env, group: seq<Plan>)
    requires forall plan :: plan in group <==> plan in plans && KeyOf(plan) == key
    requires !exists plan :: Unwritten(plans, keys, env, plan)
    ensures (exists plan :: Unwritten(plans, keys + [key], env, plan)) <==>
            !forall plan | plan in group && plan.advancesCursor && Done(env, plan) :: env.cursorOk(plan)
  {
    if plan :| Unwritten(plans, keys + [key], env, plan) {
      assert !Unwritten(plans, keys, env, plan);
      assert plan in group;
    }
    if plan :| plan in group && plan.advancesCursor && Done(env, plan) && !env.cursorOk(plan) {
      assert Unwritten(plans, keys + [key], env, plan);
    }
  }

  /** The plan of a contract completes and its cursor write throws. */
  predicate WriteThrows(cfg: IC.Config, cursors: map<string, nat>, latest: int, env: Env, c: Contract) {
    var plan := CursorPlan(cfg, Stored(cursors, c), latest, c);
    Done(env, plan) && !env.cursorOk(plan)
  }

  lemma {:induction false} StopsAtAThrow(cfg: IC.Config, contracts: seq<Contract>, cursors: map<string, nat>,
                                         latest: int, keys: seq<Key>, env: Env, stopped: bool)
    requires var plans := AllPlans(cfg, contracts, cursors, latest);
             && (stopped <==> exists plan :: Unwritten(plans, keys, env, plan))
             && (!stopped ==> forall plan | plan in plans :: KeyOf(plan) in keys)
    ensures stopped <==> exists c :: c in contracts && WriteThrows(cfg, cursors, latest, env, c)
  {
    var plans := AllPlans(cfg, contracts, cursors, latest);
    if plan :| Unwritten(plans, keys, env, plan) {
      PlansAre(cfg, contracts, cursors, latest, plan);
      assert WriteThrows(cfg, cursors, latest, env, plan.contract);
    }
    if c :| c in contracts && WriteThrows(cfg, cursors, latest, env, c) {
      CursorPlanIsPlanned(cfg, contracts, cursors, latest, c);
      assert stopped || Unwritten(plans, keys, env, CursorPlan(cfg, Stored(cursors, c), latest, c));
    }
  }
}
