/**
 * Reference ids of sweep transactions: built from kind, sweep and attempt, and read back by the
 * webhook handler's pattern ^deposit-sweep(?:-gas)?:([^:]+)(?::a\d+)?$.
 */
module SweepReferences {
  import opened Wrappers
  import opened Sweeps

  const GAS_PREFIX := "deposit-sweep-gas:"
  const SWEEP_PREFIX := "deposit-sweep:"

  function Prefix(kind: SendKind): string {
    if kind == Gas then GAS_PREFIX else SWEEP_PREFIX
  }

  function Digit(n: nat): char
    requires n < 10
  {
    '0' + n as char
  }

  /** The decimal form of an attempt. */
  function Digits(n: nat): string {
    if n < 10 then [Digit(n)] else Digits(n / 10) + [Digit(n % 10)]
  }

  function BuildSweepReferenceId(kind: SendKind, sweepId: string, attempt: nat): string {
    Prefix(kind) + sweepId + ":a" + Digits(attempt)
  }

  predicate IsDigit(c: char) { '0' <= c <= '9' }

  predicate AttemptSuffix(s: string) {
    |s| >= 3 && s[0] == ':' && s[1] == 'a' && forall i | 2 <= i < |s| :: IsDigit(s[i])
  }

  function FirstColon(s: string): (n: nat)
    ensures n <= |s| && (n < |s| ==> s[n] == ':')
    ensures forall i | 0 <= i < n :: s[i] != ':'
  {
    if s == "" || s[0] == ':' then 0 else 1 + FirstColon(s[1..])
  }

  /** The part behind the prefix: a sweep id, alone or followed by an attempt. */
  function MatchTail(t: string): Option<string> {
    var n := FirstColon(t);
    if n == 0 then None
    else if n == |t| || AttemptSuffix(t[n..]) then Some(t[..n])
    else None
  }

  /** What the webhook handler recovers: whether the event is about gas, and the sweep id. */
  function MatchReferenceId(s: string): Option<(SendKind, string)> {
    if GAS_PREFIX <= s then
      var m := MatchTail(s[|GAS_PREFIX|..]);
      if m.Some? then Some((Gas, m.value)) else None
    else if SWEEP_PREFIX <= s then
      var m := MatchTail(s[|SWEEP_PREFIX|..]);
      if m.Some? then Some((Transfer, m.value)) else None
    else None
  }

  predicate SweepId(id: string) {
    id != "" && forall i | 0 <= i < |id| :: id[i] != ':'
  }

  ghost predicate TailDenotes(t: string, id: string) {
    SweepId(id) && exists suffix :: t == id + suffix && (suffix == "" || AttemptSuffix(suffix))
  }

  /** The strings the pattern accepts, with what it captures. */
  ghost predicate Denotes(s: string, kind: SendKind, id: string) {
    Prefix(kind) <= s && TailDenotes(s[|Prefix(kind)|..], id)
  }

  lemma {:induction false} TailIsMatched(id: string, suffix: string)
    requires SweepId(id) && (suffix == "" || AttemptSuffix(suffix))
    ensures MatchTail(id + suffix) == Some(id)
  {
    var t := id + suffix;
    var n := FirstColon(t);
    assert forall i | 0 <= i < |id| :: t[i] == id[i];
    assert suffix != "" ==> t[|id|] == ':';
    assert t[..n] == id && t[n..] == suffix;
  }

  lemma {:induction false} PrefixesDiffer(s: string)
    ensures !(GAS_PREFIX <= s && SWEEP_PREFIX <= s)
  {
    assert GAS_PREFIX[13] != SWEEP_PREFIX[13];
    assert GAS_PREFIX <= s ==> s[13] == GAS_PREFIX[13];
    assert SWEEP_PREFIX <= s ==> s[13] == SWEEP_PREFIX[13];
  }

  lemma {:induction false} TailIsThePattern(t: string, id: string)
    ensures MatchTail(t) == Some(id) <==> TailDenotes(t, id)
  {
    if TailDenotes(t, id) {
      var suffix :| t == id + suffix && (suffix == "" || AttemptSuffix(suffix));
      TailIsMatched(id, suffix);
    }
    if MatchTail(t) == Some(id) {
      var n := FirstColon(t);
      assert t == t[..n] + t[n..];
    }
  }

  /** The handler recognises exactly the pattern's strings and captures exactly the sweep id. */
  lemma {:induction false} MatchIsThePattern(s: string, kind: SendKind, id: string)
    ensures MatchReferenceId(s) == Some((kind, id)) <==> Denotes(s, kind, id)
  {
    PrefixesDiffer(s);
    if Prefix(kind) <= s {
      TailIsThePattern(s[|Prefix(kind)|..], id);
    }
  }

  lemma {:induction false} DigitsAreDigits(n: nat)
    ensures |Digits(n)| > 0 && forall i | 0 <= i < |Digits(n)| :: IsDigit(Digits(n)[i])
  {
    if n >= 10 {
      DigitsAreDigits(n / 10);
    }
  }

  /** Every built id reads back as its kind and sweep, exactly for non-empty ids without a colon. */
  lemma {:induction false} BuiltIdsReadBack(kind: SendKind, sweepId: string, attempt: nat)
    ensures MatchReferenceId(BuildSweepReferenceId(kind, sweepId, attempt)) == Some((kind, sweepId)) <==>
            SweepId(sweepId)
  {
    var s := BuildSweepReferenceId(kind, sweepId, attempt);
    var suffix := ":a" + Digits(attempt);
    DigitsAreDigits(attempt);
    assert AttemptSuffix(suffix);
    assert s[|Prefix(kind)|..] == sweepId + suffix;
    MatchIsThePattern(s, kind, sweepId);
  }

  function Value(s: string): int
    requires forall i | 0 <= i < |s| :: IsDigit(s[i])
  {
    if s == "" then 0 else 10 * Value(s[..|s| - 1]) + (s[|s| - 1] as int - '0' as int)
  }

  lemma {:induction false} ValueOfDigits(n: nat)
    ensures forall i | 0 <= i < |Digits(n)| :: IsDigit(Digits(n)[i])
    ensures Value(Digits(n)) == n
  {
    DigitsAreDigits(n);
    if n >= 10 {
      ValueOfDigits(n / 10);
      assert Digits(n)[..|Digits(n)| - 1] == Digits(n / 10);
    }
  }

  /** Different sends have different reference ids. */
  lemma {:induction false} ReferenceIdsAreDistinct(k1: SendKind, id1: string, n1: nat, k2: SendKind, id2: string,
                                                   n2: nat)
    requires SweepId(id1) && SweepId(id2)
    requires BuildSweepReferenceId(k1, id1, n1) == BuildSweepReferenceId(k2, id2, n2)
    ensures k1 == k2 && id1 == id2 && n1 == n2
  {
    BuiltIdsReadBack(k1, id1, n1);
    BuiltIdsReadBack(k2, id2, n2);
    var head := Prefix(k1) + id1 + ":a";
    assert BuildSweepReferenceId(k1, id1, n1)[|head|..] == Digits(n1);
    assert BuildSweepReferenceId(k2, id2, n2)[|head|..] == Digits(n2);
    ValueOfDigits(n1);
    ValueOfDigits(n2);
  }
}
