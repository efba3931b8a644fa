/** How high a key's count can go, and how many attempts a burst can make. */
module BackoffBounds {
  import opened Market
  import opened Limits
  import opened Backoff

  // ---- the count

  ghost predicate CountsWithin(m: Attempts, most: int) {
    forall k :: k in m ==> 1 <= m[k].failures <= most
  }

  /** Past the free failures, k doublings reach the cap. */
  ghost predicate CapReachedBy(cfg: Config, k: nat) {
    k >= 1 && cfg.baseDelay * Pow2(k - 1) >= cfg.maxDelay
  }

  lemma StepKeepsCounts(cfg: Config, m: Attempts, op: Op, k: nat)
    requires cfg.freeFailures >= 0 && cfg.maxDelay > 0 && CapReachedBy(cfg, k)
    requires CountsWithin(m, cfg.freeFailures + k)
    ensures CountsWithin(After(cfg, m, op), cfg.freeFailures + k)
  {
    if op.AttemptOp? && op.key in m && m[op.key].failures == cfg.freeFailures + k {
      assert Delay(m[op.key].failures, cfg) == cfg.maxDelay;
    }
  }

  /** Bounded state. However long a key is attacked and whatever the clocks read, its count never passes the free
      failures plus the doublings that reach the cap: from there only a stale entry is admitted, and it starts over. */
  lemma {:induction false} CountIsBounded(cfg: Config, ops: seq<Op>, k: nat)
    requires cfg.freeFailures >= 0 && cfg.maxDelay > 0 && CapReachedBy(cfg, k)
    ensures CountsWithin(Run(cfg, map[], ops), cfg.freeFailures + k)
  {
    if ops != [] {
      hide After;
      CountIsBounded(cfg, ops[..|ops| - 1], k);
      StepKeepsCounts(cfg, Run(cfg, map[], ops[..|ops| - 1]), ops[|ops| - 1], k);
    }
  }

  /** The k-th attempt of a client that always waits exactly as long as it must. */
  function KnockTime(cfg: Config, n: nat): Time {
    if n == 0 then 0 else KnockTime(cfg, n - 1) + Delay(n - 1, cfg)
  }

  function Knocks(cfg: Config, key: Key, n: nat): seq<Op> {
    if n == 0 then [] else Knocks(cfg, key, n - 1) + [AttemptOp(key, KnockTime(cfg, n))]
  }

  /** And the bound is met, for the least such k: waiting out each delay and no more, every attempt is counted. */
  lemma {:induction false} CountIsReached(cfg: Config, key: Key, k: nat, n: nat)
    requires cfg.freeFailures >= 0 && cfg.maxDelay > 0 && k >= 1 && n <= cfg.freeFailures + k
    requires forall j :: 0 <= j < k - 1 ==> cfg.baseDelay * Pow2(j) < cfg.maxDelay
    ensures Run(cfg, map[], Knocks(cfg, key, n)) == if n == 0 then map[] else map[key := Attempt(n, KnockTime(cfg, n))]
  {
    if n > 0 {
      var earlier := Knocks(cfg, key, n - 1);
      CountIsReached(cfg, key, k, n - 1);
      assert Knocks(cfg, key, n)[..|earlier|] == earlier;
      assert Delay(n - 1, cfg) < cfg.maxDelay;
    }
  }

  // ---- bursts

  /** How many of a run's attempts for one key were let through. */
  function Admitted(cfg: Config, m: Attempts, ops: seq<Op>, key: Key): nat {
    if ops == [] then 0
    else
      var before, last := ops[..|ops| - 1], ops[|ops| - 1];
      Admitted(cfg, m, before, key)
      + if last.AttemptOp? && last.key == key && Admits(cfg, Run(cfg, m, before), key, last.now) then 1 else 0
  }

  /** All clock readings in [from, until), and no outcome for the key arrives. */
  ghost predicate Burst(ops: seq<Op>, key: Key, from: Time, until: Time) {
    && (forall i :: 0 <= i < |ops| && Clocked(ops[i]) ==> from <= ops[i].now < until)
    && forall i :: 0 <= i < |ops| ==> ops[i] != SucceedOp(key) && ops[i] != UndoOp(key)
  }

  ghost predicate Positive(m: Attempts) {
    forall k :: k in m ==> m[k].failures >= 1
  }

  /** What a burst has left behind: as many failures as it had attempts let through, the newest of them inside it. */
  ghost predicate Spent(m: Attempts, key: Key, admitted: nat, from: Time) {
    admitted > 0 ==> key in m && m[key].failures >= admitted && from <= m[key].lastFailure
  }

  lemma StepKeepsPositive(cfg: Config, m: Attempts, op: Op)
    requires Positive(m)
    ensures Positive(After(cfg, m, op))
  {
    hide Delay;
  }

  lemma BurstStep(cfg: Config, m: Attempts, op: Op, key: Key, admitted: nat, from: Time, until: Time)
    requires cfg.freeFailures >= 0 && cfg.baseDelay > 0 && cfg.maxDelay > 0
    requires until - from <= Min(cfg.baseDelay, cfg.maxDelay) && Positive(m)
    requires op != SucceedOp(key) && op != UndoOp(key) && (Clocked(op) ==> from <= op.now < until)
    requires Spent(m, key, admitted, from) && admitted <= cfg.freeFailures + 1
    ensures var more := if op.AttemptOp? && op.key == key && Admits(cfg, m, key, op.now) then 1 else 0;
            Spent(After(cfg, m, op), key, admitted + more, from) && admitted + more <= cfg.freeFailures + 1
  {
    if op.AttemptOp? && op.key == key && key in m {
      DelayBounds(m[key].failures, cfg);
      hide Delay;
    } else {
      hide Delay;
    }
  }

  lemma PrefixIsBurst(ops: seq<Op>, key: Key, from: Time, until: Time)
    requires ops != [] && Burst(ops, key, from, until)
    ensures Burst(ops[..|ops| - 1], key, from, until)
  {
    var before := ops[..|ops| - 1];
    assert forall i :: 0 <= i < |before| ==> before[i] == ops[i];
  }

  lemma {:induction false} BurstIsBounded(cfg: Config, m: Attempts, ops: seq<Op>, key: Key, from: Time, until: Time)
    requires cfg.freeFailures >= 0 && cfg.baseDelay > 0 && cfg.maxDelay > 0
    requires until - from <= Min(cfg.baseDelay, cfg.maxDelay) && Positive(m) && Burst(ops, key, from, until)
    ensures Positive(Run(cfg, m, ops)) && Spent(Run(cfg, m, ops), key, Admitted(cfg, m, ops, key), from)
    ensures Admitted(cfg, m, ops, key) <= cfg.freeFailures + 1
  {
    if ops != [] {
      hide After, Admits, Spent, Positive;
      var before, op := ops[..|ops| - 1], ops[|ops| - 1];
      PrefixIsBurst(ops, key, from, until);
      BurstIsBounded(cfg, m, before, key, from, until);
      StepKeepsPositive(cfg, Run(cfg, m, before), op);
      BurstStep(cfg, Run(cfg, m, before), op, key, Admitted(cfg, m, before, key), from, until);
    } else {
      assert Spent(m, key, 0, from);
    }
  }

  lemma {:induction false} RunsStayPositive(cfg: Config, ops: seq<Op>)
    ensures Positive(Run(cfg, map[], ops))
  {
    if ops != [] {
      hide After;
      RunsStayPositive(cfg, ops[..|ops| - 1]);
      StepKeepsPositive(cfg, Run(cfg, map[], ops[..|ops| - 1]), ops[|ops| - 1]);
    }
  }

  /** However many guesses arrive at once and whatever came before, an interval shorter than the smaller of the base
      and the maximum delay, in which no outcome is reported, lets through at most one more than the free failures. */
  lemma GuessesPerBurst(cfg: Config, before: seq<Op>, burst: seq<Op>, key: Key, from: Time, until: Time)
    requires cfg.freeFailures >= 0 && cfg.baseDelay > 0 && cfg.maxDelay > 0
    requires until - from <= Min(cfg.baseDelay, cfg.maxDelay) && Burst(burst, key, from, until)
    ensures Admitted(cfg, Run(cfg, map[], before), burst, key) <= cfg.freeFailures + 1
  {
    RunsStayPositive(cfg, before);
    BurstIsBounded(cfg, Run(cfg, map[], before), burst, key, from, until);
  }
}
