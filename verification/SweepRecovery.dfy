/**
 * The allocation of on-chain balances to blocked sweeps, oldest first, that the recovery script makes
 * before it requeues them.
 */
module SweepRecovery {
  /** A sweep with the facts the script filters on; `observed` is the balance a read would return. */
  datatype Blocked = Blocked(id: string, address: string, asset: string, rawAmount: int, eligible: bool, observed: nat)

  datatype Candidate = Candidate(id: string, key: (string, string), rawAmount: nat, onchainRaw: nat)

  function KeyOf(sweep: Blocked): (string, string) { (sweep.address, sweep.asset) }

  /** What one key still has, read from the chain when nothing has been taken from it. */
  function Remaining(remaining: map<(string, string), nat>, sweep: Blocked): nat {
    if KeyOf(sweep) in remaining then remaining[KeyOf(sweep)] else sweep.observed
  }

  /** All candidates of a key together. */
  function Allocated(candidates: seq<Candidate>, key: (string, string)): nat {
    if candidates == [] then 0
    else
      var last := candidates[|candidates| - 1];
      Allocated(candidates[..|candidates| - 1], key) + if last.key == key then last.rawAmount else 0
  }

  /** All positive requests of the eligible sweeps of a key. */
  function Requested(sweeps: seq<Blocked>, key: (string, string)): nat {
    if sweeps == [] then 0
    else
      var last := sweeps[|sweeps| - 1];
      Requested(sweeps[..|sweeps| - 1], key) +
        if last.eligible && KeyOf(last) == key && last.rawAmount > 0 then last.rawAmount else 0
  }

  function Least(a: nat, b: nat): nat { if a <= b then a else b }

  /** What is left of a balance once the requests before have been served. */
  function Left(balance: nat, requested: nat): nat { if requested <= balance then balance - requested else 0 }

  /** The share of a sweep: its request, or what the earlier requests of its key leave. */
  function Grant(balance: nat, sweeps: seq<Blocked>, i: nat): nat
    requires i < |sweeps|
  {
    if sweeps[i].eligible && sweeps[i].rawAmount > 0
    then Least(sweeps[i].rawAmount, Left(balance, Requested(sweeps[..i], KeyOf(sweeps[i]))))
    else 0
  }

  /** The chain answers every read of a key alike while the script runs. */
  ghost predicate Snapshot(sweeps: seq<Blocked>, balance: map<(string, string), nat>) {
    forall sweep | sweep in sweeps :: KeyOf(sweep) in balance && sweep.observed == balance[KeyOf(sweep)]
  }

  function Granted(sweeps: seq<Blocked>, balance: map<(string, string), nat>): seq<Candidate>
    requires Snapshot(sweeps, balance)
  {
    if sweeps == [] then []
    else
      var i := |sweeps| - 1;
      var before := Granted(sweeps[..i], balance);
      var key := KeyOf(sweeps[i]);
      assert sweeps[i] in sweeps;
      if Grant(balance[key], sweeps, i) == 0 then before
      else before + [Candidate(sweeps[i].id, key, Grant(balance[key], sweeps, i),
                               Left(balance[key], Requested(sweeps[..i], key)))]
  }

  lemma {:induction false} AllocatedSnoc(candidates: seq<Candidate>, c: Candidate, key: (string, string))
    ensures Allocated(candidates + [c], key) == Allocated(candidates, key) + if c.key == key then c.rawAmount else 0
  {
    assert (candidates + [c])[..|candidates|] == candidates;
  }

  /** Per wallet and asset, exactly as much is allocated as is there and is asked for. */
  lemma {:induction false} AllocatesTheLesser(sweeps: seq<Blocked>, balance: map<(string, string), nat>,
                                              key: (string, string))
    requires Snapshot(sweeps, balance) && key in balance
    ensures Allocated(Granted(sweeps, balance), key) == Least(balance[key], Requested(sweeps, key))
    decreases |sweeps|
  {
    if sweeps != [] {
      var i := |sweeps| - 1;
      AllocatesTheLesser(sweeps[..i], balance, key);
      var before := Granted(sweeps[..i], balance);
      var k := KeyOf(sweeps[i]);
      assert sweeps[i] in sweeps;
      AllocatedSnoc(before, Candidate(sweeps[i].id, k, Grant(balance[k], sweeps, i),
                                      Left(balance[k], Requested(sweeps[..i], k))), key);
    }
  }

  /** An accepted sweep gets at most its request, and something. */
  lemma {:induction false} EachGetsAtMostItsRequest(sweeps: seq<Blocked>, balance: map<(string, string), nat>,
                                                    c: Candidate)
    requires Snapshot(sweeps, balance) && c in Granted(sweeps, balance)
    ensures exists i :: 0 <= i < |sweeps| && sweeps[i].id == c.id && sweeps[i].eligible && KeyOf(sweeps[i]) == c.key &&
                        0 < c.rawAmount <= sweeps[i].rawAmount && c.rawAmount <= c.onchainRaw
    decreases |sweeps|
  {
    var i := |sweeps| - 1;
    if c in Granted(sweeps[..i], balance) {
      EachGetsAtMostItsRequest(sweeps[..i], balance, c);
      var j :| 0 <= j < i && sweeps[..i][j].id == c.id && sweeps[..i][j].eligible && KeyOf(sweeps[..i][j]) == c.key &&
               0 < c.rawAmount <= sweeps[..i][j].rawAmount && c.rawAmount <= c.onchainRaw;
      assert sweeps[j] == sweeps[..i][j];
    } else {
      assert sweeps[i].id == c.id;
    }
  }

  /** Oldest first: a later sweep gets something only when every earlier one of its key got all it asked for. */
  lemma {:induction false} EarlierIsServedFirst(sweeps: seq<Blocked>, balance: nat, i: nat, j: nat)
    requires i < j < |sweeps| && KeyOf(sweeps[i]) == KeyOf(sweeps[j]) && sweeps[i].eligible && sweeps[i].rawAmount > 0
    requires Grant(balance, sweeps, j) > 0
    ensures Grant(balance, sweeps, i) == sweeps[i].rawAmount
  {
    RequestedGrows(sweeps, i + 1, j, KeyOf(sweeps[i]));
    assert sweeps[..i + 1][..i] == sweeps[..i];
  }

  lemma {:induction false} RequestedGrows(sweeps: seq<Blocked>, i: nat, j: nat, key: (string, string))
    requires i <= j <= |sweeps|
    ensures Requested(sweeps[..i], key) <= Requested(sweeps[..j], key)
    decreases j - i
  {
    if i < j {
      RequestedGrows(sweeps, i, j - 1, key);
      assert sweeps[..j][..j - 1] == sweeps[..j - 1];
    }
  }

  // ----- the loop

  datatype Book = Book(remaining: map<(string, string), nat>, candidates: seq<Candidate>)

  function Take(book: Book, sweep: Blocked): Book {
    var remaining := Remaining(book.remaining, sweep);
    var share := if sweep.rawAmount < remaining then sweep.rawAmount else remaining;
    if !sweep.eligible || share <= 0 then book
    else Book(book.remaining[KeyOf(sweep) := remaining - share],
              book.candidates + [Candidate(sweep.id, KeyOf(sweep), share, remaining)])
  }

  function TakeAll(sweeps: seq<Blocked>): Book {
    if sweeps == [] then Book(map[], []) else Take(TakeAll(sweeps[..|sweeps| - 1]), sweeps[|sweeps| - 1])
  }

  method AllocateBlockedSweeps(sweeps: seq<Blocked>) returns (candidates: seq<Candidate>)
    ensures candidates == TakeAll(sweeps).candidates
  {
    var remainingByWalletAsset: map<(string, string), nat> := map[];
    candidates := [];
    for i := 0 to |sweeps|
      invariant Book(remainingByWalletAsset, candidates) == TakeAll(sweeps[..i])
    {
      var sweep := sweeps[i];
      assert sweeps[..i + 1][..i] == sweeps[..i];
      if sweep.eligible {
        var key := KeyOf(sweep);
        var remaining := if key in remainingByWalletAsset then remainingByWalletAsset[key] else sweep.observed;
        var rawAmount := if sweep.rawAmount < remaining then sweep.rawAmount else remaining;
        if rawAmount > 0 {
          remainingByWalletAsset := remainingByWalletAsset[key := remaining - rawAmount];
          candidates := candidates + [Candidate(sweep.id, key, rawAmount, remaining)];
        }
      }
    }
    assert sweeps[..|sweeps|] == sweeps;
  }

  /** The map holds what is left of every key that something was taken from. */
  ghost predicate Tracks(remaining: map<(string, string), nat>, sweeps: seq<Blocked>,
                         balance: map<(string, string), nat>)
  {
    forall key | key in balance ::
      if key in remaining then remaining[key] == Left(balance[key], Requested(sweeps, key))
      else Requested(sweeps, key) == 0 || balance[key] == 0
  }

  lemma {:induction false} RemainingIsLeft(remaining: map<(string, string), nat>, sweeps: seq<Blocked>, sweep: Blocked,
                                           balance: map<(string, string), nat>)
    requires Tracks(remaining, sweeps, balance) && KeyOf(sweep) in balance && sweep.observed == balance[KeyOf(sweep)]
    ensures Remaining(remaining, sweep) == Left(balance[KeyOf(sweep)], Requested(sweeps, KeyOf(sweep)))
  {
  }

  lemma {:induction false} TakeTracks(book: Book, sweeps: seq<Blocked>, balance: map<(string, string), nat>)
    requires sweeps != [] && Tracks(book.remaining, sweeps[..|sweeps| - 1], balance)
    requires var last := sweeps[|sweeps| - 1]; KeyOf(last) in balance && last.observed == balance[KeyOf(last)]
    ensures Tracks(Take(book, sweeps[|sweeps| - 1]).remaining, sweeps, balance)
  {
    RemainingIsLeft(book.remaining, sweeps[..|sweeps| - 1], sweeps[|sweeps| - 1], balance);
  }

  /** Over a fixed balance the loop grants every sweep the share defined above. */
  lemma {:induction false} LoopGrants(sweeps: seq<Blocked>, balance: map<(string, string), nat>)
    requires Snapshot(sweeps, balance)
    ensures TakeAll(sweeps).candidates == Granted(sweeps, balance) && Tracks(TakeAll(sweeps).remaining, sweeps, balance)
    decreases |sweeps|
  {
    if sweeps != [] {
      var i := |sweeps| - 1;
      LoopGrants(sweeps[..i], balance);
      assert sweeps[i] in sweeps;
      RemainingIsLeft(TakeAll(sweeps[..i]).remaining, sweeps[..i], sweeps[i], balance);
      TakeTracks(TakeAll(sweeps[..i]), sweeps, balance);
    }
  }

  /** So the loop allocates per wallet and asset the lesser of the balance and the requests. */
  lemma {:induction false} LoopAllocatesTheLesser(sweeps: seq<Blocked>, balance: map<(string, string), nat>,
                                                  key: (string, string))
    requires Snapshot(sweeps, balance) && key in balance
    ensures Allocated(TakeAll(sweeps).candidates, key) == Least(balance[key], Requested(sweeps, key))
  {
    LoopGrants(sweeps, balance);
    AllocatesTheLesser(sweeps, balance, key);
  }

  /** If the balance moves between reads: a key never hands out more than the one balance it was taken from. */
  lemma {:induction false} OneReadBounds(sweeps: seq<Blocked>, key: (string, string))
    ensures var book := TakeAll(sweeps);
            if key in book.remaining
            then exists i :: 0 <= i < |sweeps| && KeyOf(sweeps[i]) == key &&
                             sweeps[i].observed == Allocated(book.candidates, key) + book.remaining[key]
            else Allocated(book.candidates, key) == 0
    decreases |sweeps|
  {
    if sweeps != [] {
      var n := |sweeps| - 1;
      var book, next := TakeAll(sweeps[..n]), TakeAll(sweeps);
      OneReadBounds(sweeps[..n], key);
      if next != book {
        AllocatedSnoc(book.candidates, next.candidates[|book.candidates|], key);
      }
      if key in book.remaining {
        var i :| 0 <= i < n && KeyOf(sweeps[..n][i]) == key &&
                 sweeps[..n][i].observed == Allocated(book.candidates, key) + book.remaining[key];
        assert sweeps[i] == sweeps[..n][i];
      } else if key in next.remaining {
        assert KeyOf(sweeps[n]) == key;
      }
    }
  }
}
