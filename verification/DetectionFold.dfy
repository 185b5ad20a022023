/**
 * Recording the logs of a scan one after another, for every contract and address at once.  Whether a log is
 * recorded depends on what was recorded before it; detecting the logs of a contract again changes nothing.
 */
module DetectionFold {
  import opened Wrappers
  import opened LogQueries
  import opened TrackedDeposits

  datatype Contract = Contract(id: string, address: string)

  /**
   * What recording asks about a log: whether its destination is a personal address, the balance that is read
   * for it, whether the transfer is internal, and, given the logs detected before, whether an intent is
   * free to be attached to a known deposit.
   */
  datatype Desk = Desk(personal: string -> bool, balance: (string, Log) -> int, internal: Log -> bool,
                       relink: (Log, seq<Log>) -> bool)

  /** Detecting logs uses intents up; it never frees one. */
  ghost predicate ValidDesk(x: Desk) {
    forall log, seen: seq<Log>, more: Log | x.relink(log, seen + [more]) :: x.relink(log, seen)
  }

  /**
   * The rows of a contract and an address, and the distinct logs detected for them: these say which of the
   * intents, which belong to one contract and one address, are still free.
   */
  datatype Book = Book(rows: seq<Row>, seen: seq<Log>)

  function See(seen: seq<Log>, log: Log): seq<Log> { if log in seen then seen else seen + [log] }

  /** The book of a contract and an address after one of its logs. */
  function Detect(x: Desk, contract: string, book: Book, log: Log): Book {
    var relink := x.relink(log, book.seen);
    var rows :=
      if x.personal(log.destination)
      then DetectRows(book.rows, log.id, log.amount, x.balance(contract, log), x.internal(log), relink)
      else RecordDetectedDeposit(book.rows, FromLog(log.id), log.amount, relink);
    Book(rows, See(book.seen, log))
  }

  /**
   * A log is recorded unless it goes to a personal address, and comes from the exchange itself or finds no room in
   * the balance; rows of other keys stay, and a key that is there gets no second row.
   */
  lemma {:induction false} DetectRecords(x: Desk, contract: string, book: Book, log: Log, key: Key)
    ensures
      var now := Detect(x, contract, book, log);
      var taken := x.personal(log.destination) ==>
                     !x.internal(log) &&
                     HasRoom(SumTrackedRawDeposits(book.rows), log.amount, x.balance(contract, log));
      && (HasKey(now.rows, key) <==> HasKey(book.rows, key) || (taken && key == FromLog(log.id)))
      && (HasKey(book.rows, FromLog(log.id)) || !taken ==> |now.rows| == |book.rows|)
      && (forall i | 0 <= i < |book.rows| && book.rows[i].key != FromLog(log.id) :: now.rows[i] == book.rows[i])
  {
    var rows, own := book.rows, FromLog(log.id);
    var relinked, added := Relinked(rows, own), rows + [Row(own, log.amount, true)];
    assert forall i | 0 <= i < |rows| :: relinked[i].key == rows[i].key && added[i] == rows[i];
    assert added[|rows|].key == own;
  }

  function Fold(x: Desk, contract: string, book: Book, logs: seq<Log>): Book {
    if logs == [] then book
    else Detect(x, contract, Fold(x, contract, book, logs[..|logs| - 1]), logs[|logs| - 1])
  }

  lemma {:induction false} FoldSnoc(x: Desk, contract: string, book: Book, logs: seq<Log>, log: Log)
    ensures Fold(x, contract, book, logs + [log]) == Detect(x, contract, Fold(x, contract, book, logs), log)
  {
    var all := logs + [log];
    assert all[..|all| - 1] == logs && all[|all| - 1] == log;
  }

  lemma {:induction false} FoldConcat(x: Desk, contract: string, book: Book, a: seq<Log>, b: seq<Log>)
    ensures Fold(x, contract, book, a + b) == Fold(x, contract, Fold(x, contract, book, a), b)
    decreases |b|
  {
    if b == [] {
      assert a + b == a;
    } else {
      var front, last := b[..|b| - 1], b[|b| - 1];
      FoldConcat(x, contract, book, a, front);
      FoldSnoc(x, contract, book, a + front, last);
      FoldSnoc(x, contract, Fold(x, contract, book, a), front, last);
      assert b == front + [last] && a + b == (a + front) + [last];
    }
  }

  // ----- detecting again

  predicate AllCounted(rows: seq<Row>, key: Key) {
    forall i | 0 <= i < |rows| :: rows[i].key == key ==> rows[i].counted
  }

  predicate Skipped(x: Desk, contract: string, rows: seq<Row>, log: Log) {
    x.personal(log.destination) &&
    (ShouldSkipDetection(SumTrackedRawDeposits(rows), log.amount, x.balance(contract, log)) || x.internal(log))
  }

  /** A log that has been skipped or recorded once and for all. */
  predicate Final(x: Desk, contract: string, book: Book, log: Log) {
    log in book.seen &&
    (Skipped(x, contract, book.rows, log) ||
     (HasKey(book.rows, FromLog(log.id)) && (x.relink(log, book.seen) ==> AllCounted(book.rows, FromLog(log.id)))))
  }

  lemma {:induction false} RecordedIsThere(rows: seq<Row>, key: Key, amount: nat, relink: bool)
    ensures var now := RecordDetectedDeposit(rows, key, amount, relink);
            HasKey(now, key) && (relink ==> AllCounted(now, key))
  {
    var now := RecordDetectedDeposit(rows, key, amount, relink);
    if !HasKey(rows, key) {
      assert now[|rows|].key == key;
    } else {
      var i :| 0 <= i < |rows| && rows[i].key == key;
      assert now[i].key == key;
    }
  }

  lemma {:induction false} DetectIsFinal(x: Desk, contract: string, book: Book, log: Log)
    requires ValidDesk(x)
    ensures Final(x, contract, Detect(x, contract, book, log), log)
  {
    RecordedIsThere(book.rows, FromLog(log.id), log.amount, x.relink(log, book.seen));
    SeenRelinksLess(x, book.seen, log, log);
  }

  lemma {:induction false} SeenRelinksLess(x: Desk, seen: seq<Log>, log: Log, other: Log)
    requires ValidDesk(x)
    ensures x.relink(other, See(seen, log)) ==> x.relink(other, seen)
    ensures log in See(seen, log) && (other in seen ==> other in See(seen, log))
  {
  }

  lemma {:induction false} RelinkingAdds(rows: seq<Row>, key: Key)
    ensures SumTrackedRawDeposits(Relinked(rows, key)) >= SumTrackedRawDeposits(rows)
    decreases |rows|
  {
    if rows != [] {
      RelinkingAdds(rows[..|rows| - 1], key);
      assert Relinked(rows, key)[..|rows| - 1] == Relinked(rows[..|rows| - 1], key);
    }
  }

  lemma {:induction false} RecordingAdds(rows: seq<Row>, key: Key, amount: nat, relink: bool, other: Key)
    ensures var now := RecordDetectedDeposit(rows, key, amount, relink);
            && SumTrackedRawDeposits(now) >= SumTrackedRawDeposits(rows)
            && (HasKey(rows, other) ==> HasKey(now, other) && (AllCounted(rows, other) ==> AllCounted(now, other)))
  {
    var now := RecordDetectedDeposit(rows, key, amount, relink);
    TrackedSnoc(rows, Row(key, amount, true));
    RelinkingAdds(rows, key);
    if HasKey(rows, other) {
      var i :| 0 <= i < |rows| && rows[i].key == other;
      assert now[i].key == other;
    }
  }

  lemma {:induction false} DetectKeepsFinal(x: Desk, contract: string, book: Book, log: Log, done: Log)
    requires ValidDesk(x) && log.destination == done.destination && Final(x, contract, book, done)
    ensures Final(x, contract, Detect(x, contract, book, log), done)
  {
    RecordingAdds(book.rows, FromLog(log.id), log.amount, x.relink(log, book.seen), FromLog(done.id));
    SeenRelinksLess(x, book.seen, log, done);
  }

  /** All logs go to one address. */
  predicate OneAddress(logs: seq<Log>, d: string) {
    forall i | 0 <= i < |logs| :: logs[i].destination == d
  }

  lemma {:induction false} FoldMakesFinal(x: Desk, contract: string, book: Book, logs: seq<Log>, d: string, i: nat)
    requires ValidDesk(x) && OneAddress(logs, d) && i < |logs|
    ensures Final(x, contract, Fold(x, contract, book, logs), logs[i])
    decreases |logs|
  {
    var n := |logs| - 1;
    var before := Fold(x, contract, book, logs[..n]);
    if i == n {
      DetectIsFinal(x, contract, before, logs[n]);
    } else {
      FoldMakesFinal(x, contract, book, logs[..n], d, i);
      DetectKeepsFinal(x, contract, before, logs[n], logs[i]);
    }
  }

  lemma {:induction false} FinalFoldIsIdle(x: Desk, contract: string, book: Book, logs: seq<Log>)
    requires forall i | 0 <= i < |logs| :: Final(x, contract, book, logs[i])
    ensures Fold(x, contract, book, logs) == book
    decreases |logs|
  {
    if logs != [] {
      FinalFoldIsIdle(x, contract, book, logs[..|logs| - 1]);
    }
  }

  /** A scan cut short and another one of the same logs leave what the longer of the two leaves alone. */
  lemma {:induction false} AgainChangesNothing(x: Desk, contract: string, book: Book, logs: seq<Log>, d: string,
                                               a: nat, b: nat)
    requires ValidDesk(x) && OneAddress(logs, d) && a <= |logs| && b <= |logs|
    ensures Fold(x, contract, Fold(x, contract, book, logs[..a]), logs[..b]) ==
            Fold(x, contract, book, logs[..if a <= b then b else a])
  {
    var m := if a <= b then a else b;
    var first := Fold(x, contract, book, logs[..a]);
    forall i | 0 <= i < m ensures Final(x, contract, first, logs[..m][i]) {
      FoldMakesFinal(x, contract, book, logs[..a], d, i);
    }
    FinalFoldIsIdle(x, contract, first, logs[..m]);
    if a <= b {
      assert logs[..b] == logs[..a] + logs[a..b];
      FoldConcat(x, contract, first, logs[..a], logs[a..b]);
      FoldConcat(x, contract, book, logs[..a], logs[a..b]);
    }
  }

  // ----- all contracts and addresses at once

  /** The books by contract id and address. */
  type Books = map<(string, string), Book>

  function BookOf(books: Books, id: string, d: string): Book {
    if (id, d) in books then books[(id, d)] else Book([], [])
  }

  /** The Map from contract address to contract: the last one with the address. */
  function TargetOf(targets: seq<Contract>, address: string): Option<string> {
    if targets == [] then None
    else
      var last := targets[|targets| - 1];
      if last.address == address then Some(last.id) else TargetOf(targets[..|targets| - 1], address)
  }

  function Take(x: Desk, targets: seq<Contract>, books: Books, log: Log): Books {
    match TargetOf(targets, log.contract)
    case None => books
    case Some(id) => books[(id, log.destination) := Detect(x, id, BookOf(books, id, log.destination), log)]
  }

  function TakeAll(x: Desk, targets: seq<Contract>, books: Books, logs: seq<Log>): Books {
    if logs == [] then books
    else Take(x, targets, TakeAll(x, targets, books, logs[..|logs| - 1]), logs[|logs| - 1])
  }

  /** Neither two ids nor two addresses for one contract, nor two contracts for one id or address. */
  ghost predicate Coherent(targets: seq<Contract>) {
    forall i, j | 0 <= i < |targets| && 0 <= j < |targets| ::
      (targets[i].address == targets[j].address || targets[i].id == targets[j].id) ==> targets[i] == targets[j]
  }

  lemma {:induction false} TargetIsTheContract(targets: seq<Contract>, c: Contract)
    requires Coherent(targets) && c in targets
    ensures TargetOf(targets, c.address) == Some(c.id)
    decreases |targets|
  {
    var n := |targets| - 1;
    var i :| 0 <= i < |targets| && targets[i] == c;
    if targets[n].address == c.address {
      assert targets[n] == targets[i];
    } else {
      assert targets[..n][i] == c;
      TargetIsTheContract(targets[..n], c);
    }
  }

  lemma {:induction false} TargetsAreListed(targets: seq<Contract>, address: string)
    ensures TargetOf(targets, address).Some? ==> Contract(TargetOf(targets, address).value, address) in targets
    decreases |targets|
  {
    if targets != [] {
      TargetsAreListed(targets[..|targets| - 1], address);
    }
  }

  /** A log goes to its own contract's rows only. */
  lemma {:induction false} TakeIsOwn(x: Desk, targets: seq<Contract>, books: Books, log: Log, c: Contract, d: string)
    requires Coherent(targets) && c in targets
    ensures BookOf(Take(x, targets, books, log), c.id, d) ==
            if log.contract == c.address && log.destination == d then Detect(x, c.id, BookOf(books, c.id, d), log)
            else BookOf(books, c.id, d)
  {
    TargetIsTheContract(targets, c);
    TargetsAreListed(targets, log.contract);
    var target := TargetOf(targets, log.contract);
    if target == Some(c.id) {
      var i :| 0 <= i < |targets| && targets[i] == c;
      var j :| 0 <= j < |targets| && targets[j] == Contract(c.id, log.contract);
      assert targets[i].id == targets[j].id;
    }
  }

  /** So the rows of a contract and an address follow from their own logs, whatever lies between these. */
  lemma {:induction false} TakeAllIsFold(x: Desk, targets: seq<Contract>, books: Books, logs: seq<Log>, c: Contract,
                                         d: string)
    requires Coherent(targets) && c in targets
    ensures BookOf(TakeAll(x, targets, books, logs), c.id, d) ==
            Fold(x, c.id, BookOf(books, c.id, d), Select(logs, [c.address], [d]))
    decreases |logs|
  {
    if logs != [] {
      var n := |logs| - 1;
      TakeAllIsFold(x, targets, books, logs[..n], c, d);
      TakeIsOwn(x, targets, TakeAll(x, targets, books, logs[..n]), logs[n], c, d);
      SelectConcat(logs[..n], [logs[n]], [c.address], [d]);
      assert logs == logs[..n] + [logs[n]];
      if logs[n].contract == c.address && logs[n].destination == d {
        FoldConcat(x, c.id, BookOf(books, c.id, d), Select(logs[..n], [c.address], [d]), [logs[n]]);
      } else {
        assert Select(logs[..n], [c.address], [d]) + [] == Select(logs[..n], [c.address], [d]);
      }
    }
  }

  /** Rows of other contracts stay. */
  lemma {:induction false} TakeAllSpares(x: Desk, targets: seq<Contract>, books: Books, logs: seq<Log>, id: string,
                                         d: string)
    requires forall c | c in targets :: c.id != id
    ensures BookOf(TakeAll(x, targets, books, logs), id, d) == BookOf(books, id, d)
    decreases |logs|
  {
    if logs != [] {
      var n := |logs| - 1;
      TakeAllSpares(x, targets, books, logs[..n], id, d);
      TargetsAreListed(targets, logs[n].contract);
    }
  }
}
