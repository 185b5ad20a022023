/**
 * The retry loop and circuit breaker around provider calls, for calls made one after another.  What
 * the provider answers and how time passes are inputs; every call is kept in a trace.
 */
module CircuitBreaker {
  datatype Config = Config(retryAttempts: nat, threshold: nat, cooldown: nat)

  datatype Answer = Success | Permanent | Transient

  /** One provider call: when it started, when it ended, how. */
  datatype Call = Call(start: nat, end: nat, answer: Answer)

  datatype Breaker = Breaker(transientFailures: nat, circuitOpenUntil: nat, trace: seq<Call>)

  const CLOSED := Breaker(0, 0, [])

  /** `calls` are the calls the loop would make if it were never stopped. */
  datatype Invocation = Invocation(now: nat, retrySafe: bool, calls: seq<Call>)

  datatype Reply = Returned | Rethrown | Unavailable | CircuitOpen(remaining: nat)

  function Attempts(cfg: Config, retrySafe: bool): nat { if retrySafe then cfg.retryAttempts else 1 }

  /** The fields after one call. */
  function Observe(cfg: Config, s: Breaker, call: Call): Breaker {
    match call.answer
    case Success => Breaker(0, 0, s.trace + [call])
    case Permanent => s.(trace := s.trace + [call])
    case Transient =>
      var failures := s.transientFailures + 1;
      Breaker(failures,
              if failures >= cfg.threshold then call.end + cfg.cooldown else s.circuitOpenUntil,
              s.trace + [call])
  }

  /** The attempts from `k` on: another one follows only a transient failure below the threshold. */
  function Loop(cfg: Config, s: Breaker, calls: seq<Call>, k: nat, n: nat): (Breaker, Reply)
    requires k <= n <= |calls|
    decreases n - k
  {
    if k == n then (s, Unavailable)
    else
      var s1 := Observe(cfg, s, calls[k]);
      match calls[k].answer
      case Success => (s1, Returned)
      case Permanent => (s1, Rethrown)
      case Transient =>
        if s1.transientFailures >= cfg.threshold then (s1, Unavailable) else Loop(cfg, s1, calls, k + 1, n)
  }

  /** Attempt `i` starts after attempt `i - 1` ended, the first one not before `now`. */
  predicate InTurn(now: nat, calls: seq<Call>, i: nat)
    requires i < |calls|
  {
    (if i == 0 then now else calls[i - 1].end) <= calls[i].start <= calls[i].end
  }

  /** Time does not run backwards and there is an answer for every attempt. */
  ghost predicate Timely(cfg: Config, clock: nat, inv: Invocation) {
    && clock <= inv.now && Attempts(cfg, inv.retrySafe) <= |inv.calls|
    && (forall i: nat | i < |inv.calls| :: InTurn(inv.now, inv.calls, i))
  }

  function Invoke(cfg: Config, s: Breaker, inv: Invocation): (Breaker, Reply)
    requires Attempts(cfg, inv.retrySafe) <= |inv.calls|
  {
    if s.circuitOpenUntil > inv.now then (s, CircuitOpen(s.circuitOpenUntil - inv.now))
    else Loop(cfg, s, inv.calls, 0, Attempts(cfg, inv.retrySafe))
  }

  function Clock(trace: seq<Call>): nat {
    if trace == [] then 0 else trace[|trace| - 1].end
  }

  /** Invocations one after another, each starting after the last call ended. */
  ghost predicate Sequential(cfg: Config, s: Breaker, invs: seq<Invocation>)
    decreases |invs|
  {
    invs == [] || (Timely(cfg, Clock(s.trace), invs[0]) && Sequential(cfg, Invoke(cfg, s, invs[0]).0, invs[1..]))
  }

  ghost function Run(cfg: Config, s: Breaker, invs: seq<Invocation>): Breaker
    requires Sequential(cfg, s, invs)
    decreases |invs|
  {
    if invs == [] then s else Run(cfg, Invoke(cfg, s, invs[0]).0, invs[1..])
  }

  // ----- the trace alone

  /** Transient failures since the last success. */
  function Streak(trace: seq<Call>): nat {
    if trace == [] then 0
    else
      var before, last := trace[..|trace| - 1], trace[|trace| - 1];
      match last.answer case Success => 0 case Permanent => Streak(before) case Transient => Streak(before) + 1
  }

  /** When the first and the last of them ended. */
  function FirstOfStreak(trace: seq<Call>): nat {
    if trace == [] || trace[|trace| - 1].answer == Success then 0
    else
      var before, last := trace[..|trace| - 1], trace[|trace| - 1];
      if last.answer == Transient && Streak(before) == 0 then last.end else FirstOfStreak(before)
  }

  function LastOfStreak(trace: seq<Call>): nat {
    if trace == [] || trace[|trace| - 1].answer == Success then 0
    else if trace[|trace| - 1].answer == Transient then trace[|trace| - 1].end
    else LastOfStreak(trace[..|trace| - 1])
  }

  function OpenUntil(cfg: Config, trace: seq<Call>): nat {
    if Streak(trace) > 0 && Streak(trace) >= cfg.threshold then LastOfStreak(trace) + cfg.cooldown else 0
  }

  predicate InTime(trace: seq<Call>, i: nat)
    requires i < |trace|
  {
    Clock(trace[..i]) <= trace[i].start <= trace[i].end
  }

  predicate WhileClosed(cfg: Config, trace: seq<Call>, i: nat)
    requires i < |trace|
  {
    OpenUntil(cfg, trace[..i]) <= trace[i].start
  }

  /** The fields say what the trace says; calls are in order and none started while the circuit was open. */
  ghost predicate Inv(cfg: Config, s: Breaker) {
    && s.transientFailures == Streak(s.trace)
    && s.circuitOpenUntil == OpenUntil(cfg, s.trace)
    && (forall i: nat | i < |s.trace| :: InTime(s.trace, i))
    && (forall i: nat | i < |s.trace| :: WhileClosed(cfg, s.trace, i))
  }

  lemma {:induction false} EarlierCalls(cfg: Config, trace: seq<Call>, call: Call, i: nat)
    requires i < |trace|
    ensures InTime(trace + [call], i) == InTime(trace, i)
    ensures WhileClosed(cfg, trace + [call], i) == WhileClosed(cfg, trace, i)
  {
    assert (trace + [call])[..i] == trace[..i];
  }

  lemma {:induction false} FieldsFollow(cfg: Config, s: Breaker, call: Call)
    requires s.transientFailures == Streak(s.trace) && s.circuitOpenUntil == OpenUntil(cfg, s.trace)
    ensures var next := Observe(cfg, s, call);
            next.transientFailures == Streak(next.trace) && next.circuitOpenUntil == OpenUntil(cfg, next.trace)
  {
    assert (s.trace + [call])[..|s.trace|] == s.trace;
  }

  lemma {:induction false} ObserveKeeps(cfg: Config, s: Breaker, call: Call)
    requires Inv(cfg, s) && Clock(s.trace) <= call.start <= call.end && s.circuitOpenUntil <= call.start
    ensures Inv(cfg, Observe(cfg, s, call))
  {
    FieldsFollow(cfg, s, call);
    forall i: nat | i < |s.trace| ensures InTime(s.trace + [call], i) && WhileClosed(cfg, s.trace + [call], i) {
      EarlierCalls(cfg, s.trace, call, i);
    }
    assert Observe(cfg, s, call).trace == s.trace + [call];
  }

  /** What an attempt needs to know of the state it starts from. */
  predicate Ready(s: Breaker, calls: seq<Call>, k: nat) {
    k < |calls| ==> Clock(s.trace) <= calls[k].start && s.circuitOpenUntil <= calls[k].start
  }

  lemma {:induction false} AttemptKeeps(cfg: Config, s: Breaker, now: nat, calls: seq<Call>, k: nat)
    requires Inv(cfg, s) && k < |calls| && Ready(s, calls, k) && InTurn(now, calls, k)
    requires k + 1 < |calls| ==> InTurn(now, calls, k + 1)
    ensures var next := Observe(cfg, s, calls[k]);
            && Inv(cfg, next)
            && (calls[k].answer == Transient && next.transientFailures < cfg.threshold ==> Ready(next, calls, k + 1))
  {
    ObserveKeeps(cfg, s, calls[k]);
  }

  lemma {:induction false} LoopKeeps(cfg: Config, s: Breaker, now: nat, calls: seq<Call>, k: nat, n: nat)
    requires Inv(cfg, s) && k <= n <= |calls| && Ready(s, calls, k)
    requires forall i: nat | i < |calls| :: InTurn(now, calls, i)
    ensures Inv(cfg, Loop(cfg, s, calls, k, n).0)
    decreases n - k
  {
    if k < n {
      AttemptKeeps(cfg, s, now, calls, k);
      var next := Observe(cfg, s, calls[k]);
      if calls[k].answer == Transient && next.transientFailures < cfg.threshold {
        LoopKeeps(cfg, next, now, calls, k + 1, n);
      }
    }
  }

  lemma {:induction false} RunKeeps(cfg: Config, s: Breaker, invs: seq<Invocation>)
    requires Inv(cfg, s) && Sequential(cfg, s, invs)
    ensures Inv(cfg, Run(cfg, s, invs))
    decreases |invs|
  {
    if invs != [] {
      if s.circuitOpenUntil <= invs[0].now {
        assert 0 < |invs[0].calls| ==> InTurn(invs[0].now, invs[0].calls, 0);
        LoopKeeps(cfg, s, invs[0].now, invs[0].calls, 0, Attempts(cfg, invs[0].retrySafe));
      }
      RunKeeps(cfg, Invoke(cfg, s, invs[0]).0, invs[1..]);
    }
  }

  /** The counter is the number of transient failures since the last success, whatever else failed between. */
  lemma {:induction false} CountsTheStreak(cfg: Config, invs: seq<Invocation>)
    requires Sequential(cfg, CLOSED, invs)
    ensures var s := Run(cfg, CLOSED, invs);
            s.transientFailures == Streak(s.trace) && s.circuitOpenUntil == OpenUntil(cfg, s.trace)
  {
    RunKeeps(cfg, CLOSED, invs);
  }

  /** No provider call starts while the circuit is open. */
  lemma {:induction false} NoCallWhileOpen(cfg: Config, invs: seq<Invocation>, i: nat)
    requires Sequential(cfg, CLOSED, invs) && i < |Run(cfg, CLOSED, invs).trace|
    ensures var trace := Run(cfg, CLOSED, invs).trace;
            Streak(trace[..i]) > 0 && Streak(trace[..i]) >= cfg.threshold ==>
              trace[i].start >= LastOfStreak(trace[..i]) + cfg.cooldown
  {
    RunKeeps(cfg, CLOSED, invs);
    assert WhileClosed(cfg, Run(cfg, CLOSED, invs).trace, i);
  }

  predicate SuccessFree(trace: seq<Call>, from: nat, to: nat)
    requires to <= |trace|
  {
    forall k | from <= k < to :: trace[k].answer != Success
  }

  lemma {:induction false} LaterInTheStreak(trace: seq<Call>, i: nat, j: nat)
    requires i < j <= |trace| && trace[i].answer == Transient && SuccessFree(trace, i, j)
    requires forall k: nat | k < |trace| :: InTime(trace, k)
    ensures Streak(trace[..j]) >= Streak(trace[..i + 1]) > 0
    ensures trace[i].end <= LastOfStreak(trace[..j]) <= Clock(trace[..j])
    decreases j
  {
    assert trace[..j][..j - 1] == trace[..j - 1];
    if j > i + 1 {
      LaterInTheStreak(trace, i, j - 1);
      assert InTime(trace, j - 1);
    }
  }

  /** From the threshold on, two transient failures without a success between are a cooldown apart. */
  lemma {:induction false} FailuresAreACooldownApart(cfg: Config, invs: seq<Invocation>, i: nat, j: nat)
    requires Sequential(cfg, CLOSED, invs)
    requires var trace := Run(cfg, CLOSED, invs).trace;
             i < j < |trace| && trace[i].answer == trace[j].answer == Transient && SuccessFree(trace, i, j) &&
             Streak(trace[..i + 1]) >= cfg.threshold
    ensures var trace := Run(cfg, CLOSED, invs).trace;
            trace[j].start >= trace[i].end + cfg.cooldown && trace[j].end >= trace[i].end + cfg.cooldown
  {
    RunKeeps(cfg, CLOSED, invs);
    LaterInTheStreak(Run(cfg, CLOSED, invs).trace, i, j);
    assert WhileClosed(cfg, Run(cfg, CLOSED, invs).trace, j) && InTime(Run(cfg, CLOSED, invs).trace, j);
  }

  /** One cooldown for every failure of the streak beyond the one that opened the circuit. */
  function CooldownsSpent(cfg: Config, trace: seq<Call>): int { (Streak(trace) - Top(cfg)) * cfg.cooldown }

  lemma {:induction false} OneMore(m: int, c: int)
    ensures (m + 1) * c == m * c + c
  {
  }

  lemma {:induction false} StreakTakesTime(cfg: Config, trace: seq<Call>, n: nat)
    requires n <= |trace| && Streak(trace[..n]) >= cfg.threshold && Streak(trace[..n]) > 0
    requires forall k: nat | k < |trace| :: InTime(trace, k)
    requires forall k: nat | k < |trace| :: WhileClosed(cfg, trace, k)
    ensures LastOfStreak(trace[..n]) >= FirstOfStreak(trace[..n]) + CooldownsSpent(cfg, trace[..n])
    decreases n
  {
    assert trace[..n][..n - 1] == trace[..n - 1];
    var before := trace[..n - 1];
    if trace[n - 1].answer == Permanent {
      StreakTakesTime(cfg, trace, n - 1);
    } else if Streak(before) > 0 && Streak(before) >= cfg.threshold {
      StreakTakesTime(cfg, trace, n - 1);
      assert WhileClosed(cfg, trace, n - 1) && InTime(trace, n - 1);
      OneMore(Streak(before) - Top(cfg), cfg.cooldown);
    } else {
      FirstIsPast(trace, n - 1);
      assert InTime(trace, n - 1);
      assert Streak(trace[..n]) == Top(cfg);
      assert CooldownsSpent(cfg, trace[..n]) == 0 * cfg.cooldown == 0;
    }
  }

  /** A threshold of nothing opens at the first failure too. */
  function Top(cfg: Config): nat { if cfg.threshold == 0 then 1 else cfg.threshold }

  lemma {:induction false} FirstIsPast(trace: seq<Call>, n: nat)
    requires n <= |trace| && forall k: nat | k < |trace| :: InTime(trace, k)
    ensures FirstOfStreak(trace[..n]) <= Clock(trace[..n])
    decreases n
  {
    if n > 0 {
      assert trace[..n][..n - 1] == trace[..n - 1];
      FirstIsPast(trace, n - 1);
      assert InTime(trace, n - 1);
    }
  }

  /** The rate bound: every transient failure of a streak beyond the threshold has cost a cooldown. */
  lemma {:induction false} StreakIsSlow(cfg: Config, invs: seq<Invocation>)
    requires Sequential(cfg, CLOSED, invs)
    ensures var trace := Run(cfg, CLOSED, invs).trace;
            Streak(trace) >= Top(cfg) ==> CooldownsSpent(cfg, trace) <= LastOfStreak(trace) - FirstOfStreak(trace)
  {
    RunKeeps(cfg, CLOSED, invs);
    TraceIsSlow(cfg, Run(cfg, CLOSED, invs).trace);
  }

  lemma {:induction false} TraceIsSlow(cfg: Config, trace: seq<Call>)
    requires forall k: nat | k < |trace| :: InTime(trace, k)
    requires forall k: nat | k < |trace| :: WhileClosed(cfg, trace, k)
    ensures Streak(trace) >= Top(cfg) ==> CooldownsSpent(cfg, trace) <= LastOfStreak(trace) - FirstOfStreak(trace)
  {
    assert trace[..|trace|] == trace;
    if Streak(trace) >= Top(cfg) {
      StreakTakesTime(cfg, trace, |trace|);
    }
  }

  /** The calls made are the first of the attempts, up to one after which none may follow. */
  ghost predicate Exhausts(cfg: Config, calls: seq<Call>, from: nat, made: nat, n: nat, failures: nat) {
    && from <= made <= n <= |calls|
    && (forall i | from <= i < made - 1 :: calls[i].answer == Transient && failures + (i - from) + 1 < cfg.threshold)
    && (made < n ==> from < made)
    && (made < n ==> calls[made - 1].answer != Transient || failures + (made - from) >= cfg.threshold)
  }

  lemma {:induction false} LoopExhausts(cfg: Config, s: Breaker, calls: seq<Call>, k: nat, n: nat) returns (made: nat)
    requires k <= n <= |calls|
    ensures Exhausts(cfg, calls, k, made, n, s.transientFailures)
    ensures Loop(cfg, s, calls, k, n).0.trace == s.trace + calls[k..made]
    decreases n - k
  {
    if k == n {
      made := k;
      assert s.trace + [] == s.trace;
    } else {
      var s1 := Observe(cfg, s, calls[k]);
      if calls[k].answer == Transient && s1.transientFailures < cfg.threshold {
        made := LoopExhausts(cfg, s1, calls, k + 1, n);
        assert s1.trace + calls[k + 1..made] == s.trace + calls[k..made];
      } else {
        made := k + 1;
        assert calls[k..made] == [calls[k]];
      }
    }
  }

  /** An operation that is not safe to repeat reaches the provider once, or not at all behind an open circuit. */
  lemma {:induction false} UnsafeIsCalledOnce(cfg: Config, s: Breaker, inv: Invocation)
    requires Attempts(cfg, inv.retrySafe) <= |inv.calls|
    ensures var after := Invoke(cfg, s, inv).0;
            && |s.trace| <= |after.trace| <= |s.trace| + Attempts(cfg, inv.retrySafe)
            && (!inv.retrySafe ==> (after.trace == s.trace + [inv.calls[0]] <==> s.circuitOpenUntil <= inv.now))
  {
    if s.circuitOpenUntil <= inv.now {
      var made := LoopExhausts(cfg, s, inv.calls, 0, Attempts(cfg, inv.retrySafe));
      if !inv.retrySafe {
        assert inv.calls[0..1] == [inv.calls[0]];
      }
    }
  }

  /** Retries repeat only transient failures. */
  lemma {:induction false} OnlyTransientIsRepeated(cfg: Config, s: Breaker, inv: Invocation, i: nat)
    requires Attempts(cfg, inv.retrySafe) <= |inv.calls|
    requires |s.trace| <= i < |Invoke(cfg, s, inv).0.trace| - 1
    ensures Invoke(cfg, s, inv).0.trace[i].answer == Transient
  {
    var made := LoopExhausts(cfg, s, inv.calls, 0, Attempts(cfg, inv.retrySafe));
  }

  // ----- the reply

  /** What an invocation answers, told from the calls it made and from the circuit it found. */
  ghost predicate Replies(s: Breaker, now: nat, made: seq<Call>, reply: Reply) {
    && (reply == Returned <==> made != [] && made[|made| - 1].answer == Success)
    && (reply == Rethrown <==> made != [] && made[|made| - 1].answer == Permanent)
    && (reply.CircuitOpen? <==> s.circuitOpenUntil > now)
    && (reply.CircuitOpen? ==> made == [] && reply.remaining == s.circuitOpenUntil - now)
  }

  lemma {:induction false} LoopReplies(cfg: Config, s: Breaker, calls: seq<Call>, k: nat, n: nat, now: nat,
                                       was: Breaker)
    requires k <= n <= |calls| && was.circuitOpenUntil <= now
    requires was.trace <= s.trace && s.trace[|was.trace|..] == calls[..k]
    requires forall i | 0 <= i < k :: calls[i].answer == Transient
    ensures var r := Loop(cfg, s, calls, k, n);
            && was.trace <= r.0.trace && r.0.trace[|was.trace|..] <= calls
            && Replies(was, now, r.0.trace[|was.trace|..], r.1)
    decreases n - k
  {
    if k < n {
      var s1 := Observe(cfg, s, calls[k]);
      assert s1.trace == s.trace + [calls[k]];
      assert s1.trace[|was.trace|..] == s.trace[|was.trace|..] + [calls[k]];
      assert calls[..k] + [calls[k]] == calls[..k + 1];
      if calls[k].answer == Transient && s1.transientFailures < cfg.threshold {
        LoopReplies(cfg, s1, calls, k + 1, n, now, was);
      }
    }
  }

  /**
   * The result is returned exactly when the last call made succeeded, an error is passed on exactly when it is
   * permanent.
   */
  lemma {:induction false} ReplyFollowsTheCalls(cfg: Config, s: Breaker, inv: Invocation)
    requires Attempts(cfg, inv.retrySafe) <= |inv.calls|
    ensures var r := Invoke(cfg, s, inv);
            && s.trace <= r.0.trace && r.0.trace[|s.trace|..] <= inv.calls
            && Replies(s, inv.now, r.0.trace[|s.trace|..], r.1)
  {
    if s.circuitOpenUntil <= inv.now {
      assert s.trace[|s.trace|..] == inv.calls[..0];
      LoopReplies(cfg, s, inv.calls, 0, Attempts(cfg, inv.retrySafe), inv.now, s);
    }
  }

  /**
   * In every run: behind a closed circuit the first call is made, and a call is followed by another exactly when it
   * failed transiently, attempts are left, and the streak with it is below the threshold.
   */
  lemma {:induction false} AnotherCallFollows(cfg: Config, invs: seq<Invocation>, inv: Invocation, i: nat)
    requires Sequential(cfg, CLOSED, invs) && Attempts(cfg, inv.retrySafe) <= |inv.calls|
    requires Run(cfg, CLOSED, invs).circuitOpenUntil <= inv.now
    ensures
      var s := Run(cfg, CLOSED, invs);
      var trace := Invoke(cfg, s, inv).0.trace;
      && (|trace| > |s.trace| <==> Attempts(cfg, inv.retrySafe) > 0)
      && (|s.trace| <= i < |trace| ==>
            (i + 1 < |trace| <==>
             && trace[i].answer == Transient
             && i + 1 - |s.trace| < Attempts(cfg, inv.retrySafe)
             && Streak(trace[..i + 1]) < cfg.threshold))
  {
    var s := Run(cfg, CLOSED, invs);
    RunKeeps(cfg, CLOSED, invs);
    var made := LoopExhausts(cfg, s, inv.calls, 0, Attempts(cfg, inv.retrySafe));
    var trace := Invoke(cfg, s, inv).0.trace;
    assert trace == s.trace + inv.calls[0..made];
    if |s.trace| <= i < |trace| {
      var j := i - |s.trace|;
      assert trace[i] == inv.calls[j] && trace[..i + 1] == s.trace + inv.calls[..j + 1];
      StreakOfFailures(s.trace, inv.calls, j);
    }
  }

  /** Failures only lengthen the streak, by one each. */
  lemma {:induction false} StreakOfFailures(trace: seq<Call>, calls: seq<Call>, j: nat)
    requires j < |calls| && forall i | 0 <= i < j :: calls[i].answer == Transient
    ensures calls[j].answer == Transient ==> Streak(trace + calls[..j + 1]) == Streak(trace) + j + 1
  {
    var all := trace + calls[..j + 1];
    assert all[..|all| - 1] == trace + calls[..j];
    if j > 0 {
      StreakOfFailures(trace, calls, j - 1);
    } else {
      assert trace + calls[..0] == trace;
    }
  }

  class HyperliquidExecutionService {
    const cfg: Config
    var transientFailures: nat
    var circuitOpenUntil: nat
    ghost var trace: seq<Call>

    constructor (cfg: Config)
      ensures this.cfg == cfg && State() == CLOSED
    {
      this.cfg := cfg;
      transientFailures, circuitOpenUntil, trace := 0, 0, [];
    }

    ghost function State(): Breaker
      reads this
    {
      Breaker(transientFailures, circuitOpenUntil, trace)
    }

    method WithProviderResilience(inv: Invocation) returns (reply: Reply)
      requires Attempts(cfg, inv.retrySafe) <= |inv.calls|
      modifies this
      ensures (State(), reply) == Invoke(cfg, old(State()), inv)
      ensures old(trace) <= trace && Replies(old(State()), inv.now, trace[|old(trace)|..], reply)
    {
      ReplyFollowsTheCalls(cfg, State(), inv);
      if circuitOpenUntil > inv.now {
        return CircuitOpen(circuitOpenUntil - inv.now);
      }
      var attempts := if inv.retrySafe then cfg.retryAttempts else 1;
      for attempt := 0 to attempts
        invariant Loop(cfg, State(), inv.calls, attempt, attempts) == Loop(cfg, old(State()), inv.calls, 0, attempts)
      {
        var call := inv.calls[attempt];
        trace := trace + [call];
        if call.answer == Success {
          transientFailures, circuitOpenUntil := 0, 0;
          return Returned;
        }
        if call.answer == Permanent {
          return Rethrown;
        }
        transientFailures := transientFailures + 1;
        if transientFailures >= cfg.threshold {
          circuitOpenUntil := call.end + cfg.cooldown;
          break;
        }
      }
      return Unavailable;
    }
  }
}
