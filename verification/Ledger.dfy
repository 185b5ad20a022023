/**
 * The double-entry ledger: the validator of a posting, posting at most once per
 * idempotency key, and balances rebuilt from the entries of the log.
 */
module Ledger {
  import opened Wrappers

  type AssetId = string
  type UserId = string

  datatype AccountType = UserSpot | ProviderClearing | PlatformFees | OtherType(name: string)

  /** An account is keyed by its type, its asset and its owner (None is the platform). */
  datatype Account = Account(kind: AccountType, owner: Option<UserId>, asset: AssetId)

  datatype Direction = Debit | Credit

  datatype Entry = Entry(account: Account, direction: Direction, amount: real)

  /** Idempotency keys; the three conversion prefixes are disjoint from every other key. */
  datatype Key = ConvertReserve(id: nat) | ConvertTrade(id: nat) | ConvertRelease(id: nat) | OtherKey(name: string)

  datatype Posting = Posting(key: Key, entries: seq<Entry>)

  type Log = seq<Posting>

  datatype Verdict = Balanced | TooFewEntries | NonPositiveAmount | Unbalanced(asset: AssetId)

  // ----- the validator

  function DebitTotal(entries: seq<Entry>, asset: AssetId): real {
    if entries == [] then 0.0 else
      var e := entries[|entries| - 1];
      DebitTotal(entries[..|entries| - 1], asset) +
        if e.account.asset == asset && e.direction == Debit then e.amount else 0.0
  }

  function CreditTotal(entries: seq<Entry>, asset: AssetId): real {
    if entries == [] then 0.0 else
      var e := entries[|entries| - 1];
      CreditTotal(entries[..|entries| - 1], asset) +
        if e.account.asset == asset && e.direction == Credit then e.amount else 0.0
  }

  predicate AllPositive(entries: seq<Entry>) {
    forall i | 0 <= i < |entries| :: entries[i].amount > 0.0
  }

  predicate Level(entries: seq<Entry>, asset: AssetId) {
    DebitTotal(entries, asset) == CreditTotal(entries, asset)
  }

  /** What the ledger accepts: two entries or more, positive amounts, debits equal to credits in every asset named. */
  predicate Acceptable(entries: seq<Entry>) {
    && |entries| >= 2
    && AllPositive(entries)
    && forall i | 0 <= i < |entries| :: Level(entries, entries[i].account.asset)
  }

  datatype Totals = Totals(debit: real, credit: real)

  /** `order` is the insertion order of the JavaScript Map `totals`. */
  ghost predicate Accumulated(entries: seq<Entry>, totals: map<AssetId, Totals>, order: seq<AssetId>) {
    && (forall a :: a in totals <==> a in order)
    && (forall i | 0 <= i < |entries| :: entries[i].account.asset in totals)
    && (forall a | a in totals :: totals[a] == Totals(DebitTotal(entries, a), CreditTotal(entries, a)))
    && (forall p | 0 <= p < |order| :: FirstSeen(entries, order, p))
  }

  /** The p-th asset of the Map first appears behind entries of earlier assets only. */
  ghost predicate FirstSeen(entries: seq<Entry>, order: seq<AssetId>, p: nat)
    requires p < |order|
  {
    exists k :: 0 <= k < |entries| && entries[k].account.asset == order[p] &&
                forall j | 0 <= j < k :: entries[j].account.asset in order[..p]
  }

  lemma {:induction false} AbsentTotals(entries: seq<Entry>, asset: AssetId)
    requires forall i | 0 <= i < |entries| :: entries[i].account.asset != asset
    ensures DebitTotal(entries, asset) == CreditTotal(entries, asset) == 0.0
  {
    if entries != [] {
      AbsentTotals(entries[..|entries| - 1], asset);
    }
  }

  lemma {:induction false} AccumulateOne(entries: seq<Entry>, e: Entry, totals: map<AssetId, Totals>,
                                         order: seq<AssetId>)
    requires Accumulated(entries, totals, order)
    ensures
      var a := e.account.asset;
      var current := if a in totals then totals[a] else Totals(0.0, 0.0);
      var next := if e.direction == Debit then current.(debit := current.debit + e.amount)
                  else current.(credit := current.credit + e.amount);
      Accumulated(entries + [e], totals[a := next], if a in totals then order else order + [a])
  {
    var a := e.account.asset;
    var es := entries + [e];
    assert es[..|es| - 1] == entries;
    if a !in totals {
      AbsentTotals(entries, a);
    }
    var order' := if a in totals then order else order + [a];
    forall p | 0 <= p < |order'| ensures FirstSeen(es, order', p) {
      var k: nat;
      if p < |order| {
        assert FirstSeen(entries, order, p);
        k :| 0 <= k < |entries| && entries[k].account.asset == order[p] &&
             forall j | 0 <= j < k :: entries[j].account.asset in order[..p];
        assert order'[..p] == order[..p];
      } else {
        k := |entries|;
        assert order'[..p] == order;
      }
      assert es[k].account.asset == order'[p];
      assert forall j | 0 <= j < k :: es[j] == entries[j];
    }
    assert forall i | 0 <= i < |es| :: es[i] == if i < |entries| then entries[i] else e;
  }

  method AssertBalancedLedgerEntries(entries: seq<Entry>) returns (v: Verdict)
    ensures v == Balanced <==> Acceptable(entries)
    ensures v == TooFewEntries <==> |entries| < 2
    ensures v == NonPositiveAmount <==> |entries| >= 2 && !AllPositive(entries)
    // the asset reported is the first unbalanced one in entry order
    ensures v.Unbalanced? ==>
              exists k :: 0 <= k < |entries| && entries[k].account.asset == v.asset && !Level(entries, v.asset) &&
                          forall j | 0 <= j < k :: entries[j].account.asset != v.asset ==>
                              Level(entries, entries[j].account.asset)
  {
    if |entries| < 2 {
      return TooFewEntries;
    }
    var totals: map<AssetId, Totals>, order: seq<AssetId> := map[], [];
    for i := 0 to |entries|
      invariant AllPositive(entries[..i])
      invariant Accumulated(entries[..i], totals, order)
    {
      var e := entries[i];
      if e.amount <= 0.0 {
        assert !AllPositive(entries);
        return NonPositiveAmount;
      }
      var a := e.account.asset;
      var current := if a in totals then totals[a] else Totals(0.0, 0.0);
      AccumulateOne(entries[..i], e, totals, order);
      assert entries[..i + 1] == entries[..i] + [e];
      order := if a in totals then order else order + [a];
      totals := totals[a := if e.direction == Debit then current.(debit := current.debit + e.amount)
                            else current.(credit := current.credit + e.amount)];
    }
    assert entries[..|entries|] == entries;
    for p := 0 to |order|
      invariant forall q | 0 <= q < p :: Level(entries, order[q])
    {
      if totals[order[p]].debit != totals[order[p]].credit {
        assert FirstSeen(entries, order, p);
        assert !Level(entries, order[p]);
        return Unbalanced(order[p]);
      }
    }
    return Balanced;
  }

  // ----- balances

  /** The entry sets the service sums over: one account, one type of account in an asset, or a whole asset. */
  datatype Selector =
    | OneAccount(account: Account)
    | WholeType(kind: AccountType, asset: AssetId)
    | WholeAsset(asset: AssetId)

  predicate Selects(sel: Selector, account: Account) {
    match sel
    case OneAccount(a) => account == a
    case WholeType(kind, asset) => account.kind == kind && account.asset == asset
    case WholeAsset(asset) => account.asset == asset
  }

  function Signed(e: Entry): real {
    if e.direction == Credit then e.amount else -e.amount
  }

  /** The sum of a list of entries, credits counting up. */
  function CalculateAccountBalance(entries: seq<Entry>): real {
    if entries == [] then 0.0
    else CalculateAccountBalance(entries[..|entries| - 1]) + Signed(entries[|entries| - 1])
  }

  function EntriesWhere(entries: seq<Entry>, sel: Selector): seq<Entry> {
    if entries == [] then [] else
      var e := entries[|entries| - 1];
      EntriesWhere(entries[..|entries| - 1], sel) + if Selects(sel, e.account) then [e] else []
  }

  function AllEntries(log: Log): seq<Entry> {
    if log == [] then [] else AllEntries(log[..|log| - 1]) + log[|log| - 1].entries
  }

  function Balance(log: Log, sel: Selector): real {
    CalculateAccountBalance(EntriesWhere(AllEntries(log), sel))
  }

  /** What a list of entries adds to a balance. */
  function Net(entries: seq<Entry>, sel: Selector): real {
    CalculateAccountBalance(EntriesWhere(entries, sel))
  }

  lemma {:induction false} NetLast(all: seq<Entry>, front: seq<Entry>, e: Entry, sel: Selector)
    requires all == front + [e]
    ensures Net(all, sel) == Net(front, sel) + if Selects(sel, e.account) then Signed(e) else 0.0
  {
    NetSnoc(front, e, sel);
  }

  lemma {:induction false} NetConcat(a: seq<Entry>, b: seq<Entry>, sel: Selector)
    ensures Net(a + b, sel) == Net(a, sel) + Net(b, sel)
  {
    if b == [] {
      assert a + b == a;
    } else {
      var n := |b| - 1;
      NetConcat(a, b[..n], sel);
      NetLast(b, b[..n], b[n], sel);
      NetLast(a + b, a + b[..n], b[n], sel);
    }
  }

  lemma {:induction false} NetSnoc(a: seq<Entry>, e: Entry, sel: Selector)
    ensures Net(a + [e], sel) == Net(a, sel) + if Selects(sel, e.account) then Signed(e) else 0.0
  {
    assert (a + [e])[..|a|] == a;
    var kept := EntriesWhere(a, sel);
    if Selects(sel, e.account) {
      assert (kept + [e])[..|kept|] == kept;
    } else {
      assert EntriesWhere(a + [e], sel) == kept;
    }
  }

  lemma {:induction false} BalanceAppend(log: Log, p: Posting, sel: Selector)
    ensures Balance(log + [p], sel) == Balance(log, sel) + Net(p.entries, sel)
  {
    assert (log + [p])[..|log|] == log;
    NetConcat(AllEntries(log), p.entries, sel);
  }

  lemma {:induction false} NetOfAsset(entries: seq<Entry>, asset: AssetId)
    ensures Net(entries, WholeAsset(asset)) == CreditTotal(entries, asset) - DebitTotal(entries, asset)
  {
    if entries != [] {
      var n := |entries| - 1;
      NetOfAsset(entries[..n], asset);
      NetSnoc(entries[..n], entries[n], WholeAsset(asset));
      assert entries == entries[..n] + [entries[n]];
    }
  }

  lemma {:induction false} AcceptableIsLevel(entries: seq<Entry>, asset: AssetId)
    requires Acceptable(entries)
    ensures Net(entries, WholeAsset(asset)) == 0.0
  {
    NetOfAsset(entries, asset);
    if i :| 0 <= i < |entries| && entries[i].account.asset == asset {
      assert Level(entries, entries[i].account.asset);
    } else {
      AbsentTotals(entries, asset);
    }
  }

  // ----- posting

  predicate HasKey(log: Log, key: Key) {
    exists i :: 0 <= i < |log| && log[i].key == key
  }

  /** The log after a request: unchanged when the key is known or the entries are refused. */
  function Posted(log: Log, p: Posting): Log {
    if !HasKey(log, p.key) && Acceptable(p.entries) then log + [p] else log
  }

  /** postTransaction answers without throwing exactly for a known key or acceptable entries. */
  predicate Accepts(log: Log, p: Posting) {
    HasKey(log, p.key) || Acceptable(p.entries)
  }

  ghost predicate Sound(log: Log) {
    && (forall i | 0 <= i < |log| :: Acceptable(log[i].entries))
    && (forall i, j | 0 <= i < j < |log| :: log[i].key != log[j].key)
  }

  class LedgerService {
    var log: Log

    constructor ()
      ensures log == []
    {
      log := [];
    }

    /** Answers the posting now under the key, or None when the entries are refused. */
    method PostTransaction(p: Posting) returns (r: Option<Posting>)
      modifies this
      ensures log == Posted(old(log), p)
      ensures r.Some? <==> Accepts(old(log), p)
      ensures r.Some? ==> r.value in log && r.value.key == p.key
    {
      for i := 0 to |log|
        invariant log == old(log)
        invariant forall j | 0 <= j < i :: log[j].key != p.key
      {
        if log[i].key == p.key {
          return Some(log[i]);
        }
      }
      var v := AssertBalancedLedgerEntries(p.entries);
      if v != Balanced {
        return None;
      }
      log := log + [p];
      r := Some(p);
    }
  }

  function PostAll(log: Log, requests: seq<Posting>): Log
    decreases |requests|
  {
    if requests == [] then log else PostAll(Posted(log, requests[0]), requests[1..])
  }

  lemma {:induction false} PostAllSound(log: Log, requests: seq<Posting>)
    requires Sound(log)
    ensures Sound(PostAll(log, requests))
    decreases |requests|
  {
    if requests != [] {
      PostAllSound(Posted(log, requests[0]), requests[1..]);
    }
  }

  lemma {:induction false} SoundIsLevel(log: Log, asset: AssetId)
    requires Sound(log)
    ensures Balance(log, WholeAsset(asset)) == 0.0
  {
    if log != [] {
      var n := |log| - 1;
      SoundIsLevel(log[..n], asset);
      BalanceAppend(log[..n], log[n], WholeAsset(asset));
      AcceptableIsLevel(log[n].entries, asset);
      assert log == log[..n] + [log[n]];
    }
  }

  function SumOfBalances(accounts: seq<Account>, entries: seq<Entry>): real {
    if accounts == [] then 0.0
    else SumOfBalances(accounts[..|accounts| - 1], entries) + Net(entries, OneAccount(accounts[|accounts| - 1]))
  }

  ghost predicate Distinct(accounts: seq<Account>) {
    forall i, j | 0 <= i < j < |accounts| :: accounts[i] != accounts[j]
  }

  /** The accounts include all of the asset that the entries touch. */
  ghost predicate Names(accounts: seq<Account>, es: seq<Entry>, asset: AssetId) {
    forall i | 0 <= i < |es| :: es[i].account.asset == asset ==> es[i].account in accounts
  }

  lemma {:induction false} OneEntryMovesOneBalance(accounts: seq<Account>, es: seq<Entry>, e: Entry)
    requires Distinct(accounts)
    ensures SumOfBalances(accounts, es + [e]) == SumOfBalances(accounts, es) +
            if e.account in accounts then Signed(e) else 0.0
    decreases |accounts|
  {
    if accounts != [] {
      var n := |accounts| - 1;
      OneEntryMovesOneBalance(accounts[..n], es, e);
      NetSnoc(es, e, OneAccount(accounts[n]));
      assert accounts == accounts[..n] + [accounts[n]];
      if e.account == accounts[n] {
        assert e.account !in accounts[..n];
      }
    }
  }

  lemma {:induction false} NoEntriesNoBalances(accounts: seq<Account>)
    ensures SumOfBalances(accounts, []) == 0.0
  {
    if accounts != [] {
      NoEntriesNoBalances(accounts[..|accounts| - 1]);
    }
  }

  /** Summing account by account is summing the asset's entries, for any list of all its accounts. */
  lemma {:induction false} BalancesPartitionTheAsset(accounts: seq<Account>, es: seq<Entry>, asset: AssetId)
    requires Distinct(accounts)
    requires forall i | 0 <= i < |accounts| :: accounts[i].asset == asset
    requires Names(accounts, es, asset)
    ensures SumOfBalances(accounts, es) == Net(es, WholeAsset(asset))
    decreases |es|
  {
    if es == [] {
      NoEntriesNoBalances(accounts);
    } else {
      var n := |es| - 1;
      BalancesPartitionTheAsset(accounts, es[..n], asset);
      OneEntryMovesOneBalance(accounts, es[..n], es[n]);
      NetSnoc(es[..n], es[n], WholeAsset(asset));
      assert es == es[..n] + [es[n]];
    }
  }

  /** Over any history of posting requests the balances of all accounts of an asset sum to zero. */
  lemma {:induction false} AllBalancesSumToZero(requests: seq<Posting>, accounts: seq<Account>, asset: AssetId)
    requires Distinct(accounts)
    requires forall i | 0 <= i < |accounts| :: accounts[i].asset == asset
    requires Names(accounts, AllEntries(PostAll([], requests)), asset)
    ensures SumOfBalances(accounts, AllEntries(PostAll([], requests))) == 0.0
  {
    PostAllSound([], requests);
    SoundIsLevel(PostAll([], requests), asset);
    BalancesPartitionTheAsset(accounts, AllEntries(PostAll([], requests)), asset);
  }
}
