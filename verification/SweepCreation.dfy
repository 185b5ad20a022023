/**
 * Creating sweeps from credited deposits: grouping by address and token, one sweep for each group,
 * and the amount of every sweep staying the sum of the deposits that joined it.
 */
module SweepCreation {
  import opened Wrappers

  datatype Deposit = Deposit(address: Option<string>, privy: bool, token: string, rawAmount: nat, credited: bool,
                             sweep: Option<nat>)

  datatype NewSweep = NewSweep(address: string, token: string, amount: nat)

  /** Deposit address and token contract (or asset, without one). */
  type GroupKey = (string, string)

  const TAKE := 500

  /** What the query selects. */
  predicate Candidate(d: Deposit) {
    d.credited && d.address.Some? && d.privy && d.sweep.None?
  }

  function KeyOf(d: Deposit): GroupKey
    requires d.address.Some?
  {
    (d.address.value, d.token)
  }

  /** Candidates older than the i-th deposit; the query stops at TAKE. */
  function Rank(deposits: seq<Deposit>, i: nat): nat
    requires i <= |deposits|
  {
    if i == 0 then 0 else Rank(deposits, i - 1) + if Candidate(deposits[i - 1]) then 1 else 0
  }

  predicate Taken(deposits: seq<Deposit>, i: nat)
    requires i < |deposits|
  {
    Candidate(deposits[i]) && Rank(deposits, i) < TAKE
  }

  lemma {:induction false} RankGrows(deposits: seq<Deposit>, i: nat, j: nat)
    requires i <= j <= |deposits|
    ensures Rank(deposits, i) <= Rank(deposits, j)
    decreases j
  {
    if i < j {
      RankGrows(deposits, i, j - 1);
    }
  }

  /** The sum of the deposits in a sweep. */
  function Joined(deposits: seq<Deposit>, sweep: nat): nat {
    if deposits == [] then 0 else
      var d := deposits[|deposits| - 1];
      Joined(deposits[..|deposits| - 1], sweep) + if d.sweep == Some(sweep) then d.rawAmount else 0
  }

  lemma {:induction false} JoiningAdds(deposits: seq<Deposit>, i: nat, d: Deposit, sweep: nat)
    requires i < |deposits| && d.rawAmount == deposits[i].rawAmount
    ensures Joined(deposits[i := d], sweep) ==
            Joined(deposits, sweep) - (if deposits[i].sweep == Some(sweep) then d.rawAmount else 0)
            + (if d.sweep == Some(sweep) then d.rawAmount else 0)
    decreases |deposits|
  {
    var n := |deposits| - 1;
    if i < n {
      JoiningAdds(deposits[..n], i, d, sweep);
      assert deposits[i := d][..n] == deposits[..n][i := d];
    } else {
      assert deposits[i := d][..n] == deposits[..n];
    }
  }

  lemma {:induction false} NobodyJoined(deposits: seq<Deposit>, sweep: nat)
    requires forall i | 0 <= i < |deposits| :: deposits[i].sweep != Some(sweep)
    ensures Joined(deposits, sweep) == 0
    decreases |deposits|
  {
    if deposits != [] {
      NobodyJoined(deposits[..|deposits| - 1], sweep);
    }
  }

  /** `group` holds the taken deposits of a key among the first i. */
  ghost predicate GroupIs(deposits: seq<Deposit>, group: seq<nat>, key: GroupKey, i: nat)
    requires i <= |deposits|
  {
    && (forall j: nat | j in group :: j < i && Taken(deposits, j) && KeyOf(deposits[j]) == key)
    && (forall j: nat | j < i && Taken(deposits, j) && KeyOf(deposits[j]) == key :: j in group)
  }

  /** How the transaction of a group ends: stored, refused by a unique key, or with another error. */
  datatype GroupOutcome = Commits | Conflicts | Throws

  /** A deposit the query takes, at an eligible address, in a group that ends as given. */
  predicate WantsIn(deposits: seq<Deposit>, j: nat, eligible: set<string>, outcome: GroupKey -> GroupOutcome,
                    end: GroupOutcome)
    requires j < |deposits|
  {
    Taken(deposits, j) && deposits[j].address.value in eligible && outcome(KeyOf(deposits[j])) == end
  }

  /** The same deposit, now in a sweep not older than the given one. */
  predicate JoinsAfter(was: Deposit, now: Deposit, sweep: nat) {
    was.sweep.None? && now.sweep.Some? && now.sweep.value >= sweep && now == was.(sweep := now.sweep)
  }

  /** After the groups with the given keys: their committed deposits have joined, all others are as they were. */
  ghost predicate JoinedUpTo(was: seq<Deposit>, now: seq<Deposit>, eligible: set<string>,
                             outcome: GroupKey -> GroupOutcome, keys: seq<GroupKey>, first: nat)
  {
    && |now| == |was|
    && forall j | 0 <= j < |was| ::
         if WantsIn(was, j, eligible, outcome, Commits) && KeyOf(was[j]) in keys
         then JoinsAfter(was[j], now[j], first) else now[j] == was[j]
  }

  /** A group that joins, or one that has nothing to join. */
  lemma {:induction false} JoinedOneMore(was: seq<Deposit>, mid: seq<Deposit>, now: seq<Deposit>, eligible: set<string>,
                                         outcome: GroupKey -> GroupOutcome, keys: seq<GroupKey>, key: GroupKey,
                                         group: seq<nat>, first: nat, id: nat)
    requires JoinedUpTo(was, mid, eligible, outcome, keys, first) && key !in keys && first <= id && |now| == |was|
    requires GroupIs(was, group, key, |was|)
    requires if key.0 in eligible && outcome(key) == Commits
             then forall j | 0 <= j < |was| ::
                    now[j] == if j in group && mid[j].credited && mid[j].sweep.None?
                              then mid[j].(sweep := Some(id)) else mid[j]
             else now == mid
    ensures JoinedUpTo(was, now, eligible, outcome, keys + [key], first)
  {
    forall j | 0 <= j < |was|
      ensures if WantsIn(was, j, eligible, outcome, Commits) && KeyOf(was[j]) in keys + [key]
              then JoinsAfter(was[j], now[j], first) else now[j] == was[j]
    {
      assert j in group <==> Taken(was, j) && KeyOf(was[j]) == key;
    }
  }

  /** The amounts stored with the sweeps. */
  function StoredTotal(sweeps: seq<NewSweep>): nat {
    if sweeps == [] then 0 else StoredTotal(sweeps[..|sweeps| - 1]) + sweeps[|sweeps| - 1].amount
  }

  /** The rows after the first of a group have joined a new sweep: those, and no others. */
  ghost predicate JoinedSoFar(was: seq<Deposit>, rows: seq<Deposit>, taken: seq<nat>, id: nat) {
    && |rows| == |was|
    && (forall k | 0 <= k < id :: Joined(rows, k) == Joined(was, k))
    && (forall j | 0 <= j < |rows| ::
          rows[j] == if j in taken && was[j].credited && was[j].sweep.None? then was[j].(sweep := Some(id)) else was[j])
  }

  lemma {:induction false} OneMoreJoins(was: seq<Deposit>, rows: seq<Deposit>, taken: seq<nat>, id: nat, j: nat)
    requires JoinedSoFar(was, rows, taken, id) && j < |rows|
    ensures var d := rows[j].(sweep := Some(id));
            if rows[j].credited && rows[j].sweep.None?
            then JoinedSoFar(was, rows[j := d], taken + [j], id) &&
              Joined(rows[j := d], id) == Joined(rows, id) + d.rawAmount
            else JoinedSoFar(was, rows, taken + [j], id)
  {
    if rows[j].credited && rows[j].sweep.None? {
      var d := rows[j].(sweep := Some(id));
      JoiningAdds(rows, j, d, id);
      forall k | 0 <= k < id ensures Joined(rows[j := d], k) == Joined(was, k) {
        JoiningAdds(rows, j, d, k);
      }
    }
  }

  class SweepCreator {
    var deposits: seq<Deposit>
    var sweeps: seq<NewSweep>

    /** Every sweep is worth its deposits, and deposits join sweeps of their own address and token. */
    ghost predicate Valid()
      reads this
    {
      && (forall k | 0 <= k < |sweeps| :: sweeps[k].amount == Joined(deposits, k))
      && (forall i | 0 <= i < |deposits| && deposits[i].sweep.Some? ::
            && deposits[i].sweep.value < |sweeps| && deposits[i].address.Some?
            && KeyOf(deposits[i]) == (sweeps[deposits[i].sweep.value].address, sweeps[deposits[i].sweep.value].token))
    }

    /** One group's transaction: the deposits still unswept, their sum, the sweep, the links. */
    method JoinGroup(key: GroupKey, group: seq<nat>)
      requires Valid()
      requires forall j: nat | j in group :: j < |deposits| && deposits[j].address.Some? && KeyOf(deposits[j]) == key
      modifies this
      ensures Valid()
      ensures |deposits| == |old(deposits)| && old(sweeps) <= sweeps
      ensures forall j | 0 <= j < |deposits| ::
                deposits[j] == if j in group && old(deposits)[j].credited && old(deposits)[j].sweep.None?
                               then old(deposits)[j].(sweep := Some(|old(sweeps)|)) else old(deposits)[j]
    {
      var id := |sweeps|;
      ghost var was := deposits;
      NobodyJoined(deposits, id);
      var amount, joined := 0, false;
      var rows := deposits;
      for p := 0 to |group|
        invariant deposits == was && sweeps == old(sweeps)
        invariant |rows| == |was| && JoinedSoFar(was, rows, group[..p], id)
        invariant amount == Joined(rows, id)
        invariant !joined ==> rows == was
      {
        var j := group[p];
        assert j in group;
        assert group[..p + 1] == group[..p] + [j];
        OneMoreJoins(was, rows, group[..p], id, j);
        if rows[j].credited && rows[j].sweep.None? {
          amount, joined := amount + rows[j].rawAmount, true;
          rows := rows[j := rows[j].(sweep := Some(id))];
        }
      }
      assert group[..|group|] == group;
      if joined {
        deposits := rows;
        sweeps := sweeps + [NewSweep(key.0, key.1, amount)];
      }
    }

    /** Groups of candidate indices, in the order their keys first appear. */
    method GroupCandidates() returns (groups: map<GroupKey, seq<nat>>, order: seq<GroupKey>)
      ensures forall key :: key in groups <==> key in order
      ensures forall p, q | 0 <= p < q < |order| :: order[p] != order[q]
      ensures forall key | key in groups :: groups[key] != [] && GroupIs(deposits, groups[key], key, |deposits|)
      ensures forall j | 0 <= j < |deposits| && Taken(deposits, j) :: KeyOf(deposits[j]) in groups
    {
      groups, order := map[], [];
      var taken, i := 0, 0;
      while i < |deposits| && taken < TAKE
        invariant i <= |deposits| && taken == Rank(deposits, i)
        invariant taken <= TAKE
        invariant forall key :: key in groups <==> key in order
        invariant forall p, q | 0 <= p < q < |order| :: order[p] != order[q]
        invariant forall key | key in groups :: groups[key] != [] && GroupIs(deposits, groups[key], key, i)
        invariant forall j | 0 <= j < i && Taken(deposits, j) :: KeyOf(deposits[j]) in groups
      {
        if Candidate(deposits[i]) {
          var key := KeyOf(deposits[i]);
          ghost var before := groups;
          if key in groups {
            groups := groups[key := groups[key] + [i]];
          } else {
            groups := groups[key := [i]];
            order := order + [key];
          }
          taken := taken + 1;
          forall other | other in groups ensures GroupIs(deposits, groups[other], other, i + 1) {
            if other != key {
              assert GroupIs(deposits, before[other], other, i) && groups[other] == before[other];
            } else if key in before {
              assert GroupIs(deposits, before[key], key, i) && groups[key] == before[key] + [i];
            }
          }
        }
        i := i + 1;
      }
      forall j | i <= j < |deposits| ensures !Taken(deposits, j) {
        RankGrows(deposits, i, j);
      }
    }

    /**
     * Every candidate in reach whose address is eligible and whose group commits joins one new sweep; a group in
     * conflict is passed over, one that throws ends the creation, and nothing else changes.
     */
    method CreatePendingSweeps(eligible: set<string>, outcome: GroupKey -> GroupOutcome) returns (thrown: bool)
      requires Valid()
      modifies this
      ensures Valid()
      ensures |deposits| == |old(deposits)| && old(sweeps) <= sweeps
      ensures forall j | 0 <= j < |deposits| ::
                deposits[j] == old(deposits)[j] || JoinsAfter(old(deposits)[j], deposits[j], |old(sweeps)|)
      ensures forall j | 0 <= j < |deposits| ::
                deposits[j] != old(deposits)[j] ==> WantsIn(old(deposits), j, eligible, outcome, Commits)
      ensures forall j | 0 <= j < |deposits| ::
                !thrown && WantsIn(old(deposits), j, eligible, outcome, Commits) ==> deposits[j] != old(deposits)[j]
      ensures thrown <==> exists j :: 0 <= j < |deposits| && WantsIn(old(deposits), j, eligible, outcome, Throws)
    {
      ghost var was, first := deposits, |sweeps|;
      var groups, order := GroupCandidates();
      for p := 0 to |order|
        invariant Valid() && old(sweeps) <= sweeps
        invariant JoinedUpTo(was, deposits, eligible, outcome, order[..p], first)
        invariant forall j | 0 <= j < |was| ::
                    WantsIn(was, j, eligible, outcome, Throws) ==> KeyOf(was[j]) !in order[..p]
      {
        var key := order[p];
        assert order[..p + 1] == order[..p] + [key] && key !in order[..p];
        assert key in order && GroupIs(was, groups[key], key, |was|);
        ghost var mid, id := deposits, |sweeps|;
        if key.0 in eligible {
          if outcome(key) == Throws {
            assert groups[key][0] in groups[key] && WantsIn(was, groups[key][0], eligible, outcome, Throws);
            return true;
          }
          if outcome(key) == Commits {
            JoinGroup(key, groups[key]);
          }
        }
        JoinedOneMore(was, mid, deposits, eligible, outcome, order[..p], key, groups[key], first, id);
      }
      assert order[..|order|] == order;
      thrown := false;
    }

    /** A deposit arrives, credited or not yet: no sweep is worth more or less for it. */
    method RecordDeposit(d: Deposit)
      requires Valid() && d.sweep.None?
      modifies this`deposits
      ensures Valid() && deposits == old(deposits) + [d]
    {
      forall k | 0 <= k < |sweeps| ensures Joined(deposits + [d], k) == Joined(deposits, k) {
        assert (deposits + [d])[..|deposits|] == deposits;
      }
      deposits := deposits + [d];
    }

    /** The amounts stored with all sweeps are worth exactly the deposits that have joined one. */
    lemma {:induction false} AmountsAreTheDeposits()
      requires Valid()
      ensures StoredTotal(sweeps) == SweptTotal(deposits)
    {
      StoredIsJoined(deposits, sweeps);
      SweepsConserveValue(deposits, |sweeps|);
    }
  }

  function SweptTotal(deposits: seq<Deposit>): nat {
    if deposits == [] then 0 else
      var d := deposits[|deposits| - 1];
      SweptTotal(deposits[..|deposits| - 1]) + if d.sweep.Some? then d.rawAmount else 0
  }

  function SumOfSweeps(deposits: seq<Deposit>, n: nat): nat {
    if n == 0 then 0 else SumOfSweeps(deposits, n - 1) + Joined(deposits, n - 1)
  }

  lemma {:induction false} OneDepositOneSweep(deposits: seq<Deposit>, d: Deposit, n: nat)
    ensures SumOfSweeps(deposits + [d], n) == SumOfSweeps(deposits, n) +
            if d.sweep.Some? && d.sweep.value < n then d.rawAmount else 0
  {
    if n > 0 {
      OneDepositOneSweep(deposits, d, n - 1);
      assert (deposits + [d])[..|deposits|] == deposits;
    }
  }

  /** No deposit is counted twice and none is lost. */
  lemma {:induction false} SweepsConserveValue(deposits: seq<Deposit>, n: nat)
    requires forall i | 0 <= i < |deposits| && deposits[i].sweep.Some? :: deposits[i].sweep.value < n
    ensures SumOfSweeps(deposits, n) == SweptTotal(deposits)
    decreases |deposits|
  {
    if deposits == [] {
      NothingSwept(n);
    } else {
      var m := |deposits| - 1;
      SweepsConserveValue(deposits[..m], n);
      OneDepositOneSweep(deposits[..m], deposits[m], n);
      assert deposits == deposits[..m] + [deposits[m]];
    }
  }

  lemma {:induction false} StoredIsJoined(deposits: seq<Deposit>, sweeps: seq<NewSweep>)
    requires forall k | 0 <= k < |sweeps| :: sweeps[k].amount == Joined(deposits, k)
    ensures StoredTotal(sweeps) == SumOfSweeps(deposits, |sweeps|)
    decreases |sweeps|
  {
    if sweeps != [] {
      StoredIsJoined(deposits, sweeps[..|sweeps| - 1]);
    }
  }

  lemma {:induction false} NothingSwept(n: nat)
    ensures SumOfSweeps([], n) == 0
  {
    if n > 0 {
      NothingSwept(n - 1);
    }
  }
}
