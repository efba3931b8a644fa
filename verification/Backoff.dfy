/** Exponential backoff over consecutive failures: a state machine per key, counting optimistically. */
module Backoff {
  import opened Market
  import opened Limits

  /** Durations in nanoseconds. */
  datatype Config = Config(freeFailures: int, baseDelay: Time, maxDelay: Time)

  datatype Attempt = Attempt(failures: int, lastFailure: Time)

  type Attempts = map<Key, Attempt>

  // ---- the schedule

  function Pow2(n: nat): (p: nat)
    ensures p >= 1
  {
    if n == 0 then 1 else 2 * Pow2(n - 1)
  }

  function Min(a: Time, b: Time): Time { if a > b then b else a }

  /** The doubling in one expression: free failures cost nothing, and every one past them twice the one before, up to
      the cap. */
  function Delay(failures: int, cfg: Config): Time {
    var excess := failures - cfg.freeFailures;
    if excess <= 0 then 0 else Min(cfg.baseDelay * Pow2(excess - 1), cfg.maxDelay)
  }

  lemma {:induction false} Pow2Monotone(m: nat, n: nat)
    requires m <= n
    ensures Pow2(m) <= Pow2(n)
    decreases n - m
  {
    if m < n {
      Pow2Monotone(m + 1, n);
    }
  }

  lemma ProductMonotone(base: int, p: int, q: int)
    requires base >= 0 && p <= q
    ensures base * p <= base * q
  {}

  /** Doubling stops the moment the cap is reached, so no value doubled into reaches twice the cap, however many
      failures there were: what keeps the schedule from wrapping around. */
  method DelayByDoubling(failures: int, cfg: Config) returns (delay: Time, ghost largest: Time)
    requires cfg.baseDelay >= 0
    ensures delay == Delay(failures, cfg)
    ensures largest <= cfg.baseDelay || largest < 2 * cfg.maxDelay
  {
    var excess := failures - cfg.freeFailures;
    largest := 0;
    if excess <= 0 {
      return 0, 0;
    }
    var d := cfg.baseDelay;
    largest := d;
    var i := 1;
    while i < excess
      invariant 1 <= i <= excess && d == cfg.baseDelay * Pow2(i - 1)
      invariant largest <= cfg.baseDelay || largest < 2 * cfg.maxDelay
    {
      if d >= cfg.maxDelay {
        Pow2Monotone(i - 1, excess - 1);
        ProductMonotone(cfg.baseDelay, Pow2(i - 1), Pow2(excess - 1));
        break;
      }
      d := d * 2;
      largest := d;
      i := i + 1;
    }
    if d > cfg.maxDelay {
      return cfg.maxDelay, largest;
    }
    return d, largest;
  }

  lemma DelayBounds(failures: int, cfg: Config)
    requires cfg.baseDelay >= 0 && cfg.maxDelay >= 0
    ensures 0 <= Delay(failures, cfg) <= cfg.maxDelay
    ensures failures > cfg.freeFailures ==> Delay(failures, cfg) >= Min(cfg.baseDelay, cfg.maxDelay)
  {
    var excess := failures - cfg.freeFailures;
    if excess > 0 {
      ProductMonotone(cfg.baseDelay, 1, Pow2(excess - 1));
    }
  }

  // ---- the operations, as values

  predicate Stale(a: Attempt, now: Time, cfg: Config) {
    now - a.lastFailure >= cfg.maxDelay
  }

  predicate Admits(cfg: Config, m: Attempts, key: Key, now: Time) {
    key !in m || Stale(m[key], now, cfg) || now - m[key].lastFailure >= Delay(m[key].failures, cfg)
      || Delay(m[key].failures, cfg) <= 0
  }

  function Answered(cfg: Config, m: Attempts, key: Key, now: Time): Answer {
    if Admits(cfg, m, key, now) then Allowed
    else Refused(Delay(m[key].failures, cfg) - (now - m[key].lastFailure))
  }

  function AfterAttempt(cfg: Config, m: Attempts, key: Key, now: Time): Attempts {
    if !Admits(cfg, m, key, now) then m
    else if key !in m || Stale(m[key], now, cfg) then m[key := Attempt(1, now)]
    else m[key := Attempt(m[key].failures + 1, now)]
  }

  function AfterUndo(m: Attempts, key: Key): Attempts {
    if key !in m then m
    else if m[key].failures - 1 <= 0 then m - {key}
    else m[key := m[key].(failures := m[key].failures - 1)]
  }

  function WithoutStale(cfg: Config, m: Attempts, now: Time): Attempts {
    map k | k in m && !Stale(m[k], now, cfg) :: m[k]
  }

  // ---- the object

  /** now is what the clock read before the lock was taken. */
  class Limiter {
    const cfg: Config
    var attempts: Attempts

    constructor (cfg: Config)
      ensures this.cfg == cfg && attempts == map[]
    {
      this.cfg := cfg;
      this.attempts := map[];
    }

    method TryAttempt(key: Key, now: Time) returns (r: Answer)
      requires cfg.baseDelay >= 0
      modifies this`attempts
      ensures r == Answered(cfg, old(attempts), key, now)
      ensures attempts == AfterAttempt(cfg, old(attempts), key, now)
    {
      if key !in attempts || Stale(attempts[key], now, cfg) {
        attempts := attempts[key := Attempt(1, now)];
        return Allowed;
      }
      var a := attempts[key];
      var delay, _ := DelayByDoubling(a.failures, cfg);
      if delay > 0 {
        var elapsed := now - a.lastFailure;
        if elapsed < delay {
          return Refused(delay - elapsed);
        }
      }
      attempts := attempts[key := Attempt(a.failures + 1, now)];
      return Allowed;
    }

    method Succeed(key: Key)
      modifies this`attempts
      ensures attempts == old(attempts) - {key}
    {
      attempts := attempts - {key};
    }

    method Undo(key: Key)
      modifies this`attempts
      ensures attempts == AfterUndo(old(attempts), key)
    {
      if key !in attempts {
        return;
      }
      var failures := attempts[key].failures - 1;
      attempts := attempts[key := attempts[key].(failures := failures)];
      if failures <= 0 {
        attempts := attempts - {key};
      }
    }

    method EvictStale(now: Time)
      modifies this`attempts
      ensures attempts == WithoutStale(cfg, old(attempts), now)
    {
      var left := attempts.Keys;
      while left != {}
        invariant left <= attempts.Keys && left <= old(attempts).Keys
        invariant forall k :: k in attempts <==> k in old(attempts) && (k in left || !Stale(old(attempts)[k], now, cfg))
        invariant forall k :: k in attempts ==> attempts[k] == old(attempts)[k]
      {
        var key :| key in left;
        if Stale(attempts[key], now, cfg) {
          attempts := attempts - {key};
        }
        left := left - {key};
      }
      assert attempts == WithoutStale(cfg, old(attempts), now);
    }
  }

  // ---- one step's meaning

  /** A refusal says exactly how long to wait: the same key is refused until then, and admitted then. */
  lemma RetryAfterIsExact(cfg: Config, m: Attempts, key: Key, now: Time, later: Time)
    requires cfg.baseDelay >= 0 && cfg.maxDelay >= 0 && Answered(cfg, m, key, now).Refused? && now <= later
    ensures var wait := Answered(cfg, m, key, now).retryAfter;
            wait > 0 && (Admits(cfg, m, key, later) <==> later >= now + wait)
  {
    DelayBounds(m[key].failures, cfg);
  }

  /** What Undo undoes: the count, exactly, but not the time of the failure. A key with a live count keeps it and waits
      from the undone attempt on; any other key is as if never tried. */
  lemma UndoRestoresCountNotTime(cfg: Config, m: Attempts, key: Key, now: Time)
    requires Admits(cfg, m, key, now) && (key in m ==> m[key].failures >= 1)
    ensures AfterUndo(AfterAttempt(cfg, m, key, now), key)
            == if key in m && !Stale(m[key], now, cfg) then m[key := Attempt(m[key].failures, now)] else m - {key}
  {}

  // ---- whole runs

  datatype Op =
    | AttemptOp(key: Key, now: Time)
    | SucceedOp(key: Key)
    | UndoOp(key: Key)
    | EvictOp(now: Time)

  function After(cfg: Config, m: Attempts, op: Op): Attempts {
    match op
    case AttemptOp(key, now) => AfterAttempt(cfg, m, key, now)
    case SucceedOp(key) => m - {key}
    case UndoOp(key) => AfterUndo(m, key)
    case EvictOp(now) => WithoutStale(cfg, m, now)
  }

  function Run(cfg: Config, m: Attempts, ops: seq<Op>): Attempts {
    if ops == [] then m else After(cfg, Run(cfg, m, ops[..|ops| - 1]), ops[|ops| - 1])
  }

  /** The answers given, in order. */
  function Answers(cfg: Config, m: Attempts, ops: seq<Op>): seq<Answer> {
    if ops == [] then []
    else
      var before, last := ops[..|ops| - 1], ops[|ops| - 1];
      Answers(cfg, m, before)
      + if last.AttemptOp? then [Answered(cfg, Run(cfg, m, before), last.key, last.now)] else []
  }

  predicate Clocked(op: Op) { op.AttemptOp? || op.EvictOp? }

  /** An attempt's reading is at least every reading before it. A sweeper may lag: it reads the clock before it takes the
      lock. */
  ghost predicate AttemptsAscend(ops: seq<Op>) {
    forall i, j :: 0 <= i < j < |ops| && Clocked(ops[i]) && ops[j].AttemptOp? ==> ops[i].now <= ops[j].now
  }

  function WithoutEvictions(ops: seq<Op>): seq<Op> {
    if ops == [] then []
    else WithoutEvictions(ops[..|ops| - 1]) + if ops[|ops| - 1].EvictOp? then [] else [ops[|ops| - 1]]
  }

  /** An entry some reading so far finds stale. */
  ghost predicate StaleIn(cfg: Config, a: Attempt, ops: seq<Op>) {
    exists i :: 0 <= i < |ops| && Clocked(ops[i]) && Stale(a, ops[i].now, cfg)
  }

  /** What sweeping may have taken away: only entries that will read as absent. */
  ghost predicate SameButStale(cfg: Config, swept: Attempts, kept: Attempts, ops: seq<Op>) {
    && (forall k :: k in swept ==> k in kept && kept[k] == swept[k])
    && forall k :: k in kept && k !in swept ==> StaleIn(cfg, kept[k], ops)
  }

  lemma StaleStays(cfg: Config, a: Attempt, b: Attempt, ops: seq<Op>)
    requires ops != [] && StaleIn(cfg, a, ops[..|ops| - 1]) && b.lastFailure == a.lastFailure
    ensures StaleIn(cfg, b, ops)
    ensures AttemptsAscend(ops) && ops[|ops| - 1].AttemptOp? ==> Stale(b, ops[|ops| - 1].now, cfg)
  {
    var i :| 0 <= i < |ops| - 1 && Clocked(ops[..|ops| - 1][i]) && Stale(a, ops[..|ops| - 1][i].now, cfg);
    assert Clocked(ops[i]) && Stale(b, ops[i].now, cfg);
  }

  lemma StepKeepsSameButStale(cfg: Config, swept: Attempts, kept: Attempts, ops: seq<Op>)
    requires ops != [] && AttemptsAscend(ops) && SameButStale(cfg, swept, kept, ops[..|ops| - 1])
    ensures var op := ops[|ops| - 1];
            && SameButStale(cfg, After(cfg, swept, op), if op.EvictOp? then kept else After(cfg, kept, op), ops)
            && (op.AttemptOp? ==> Answered(cfg, swept, op.key, op.now) == Answered(cfg, kept, op.key, op.now))
  {
    hide Delay;
    var op := ops[|ops| - 1];
    var swept', kept' := After(cfg, swept, op), if op.EvictOp? then kept else After(cfg, kept, op);
    if op.AttemptOp? && op.key in kept && op.key !in swept {
      StaleStays(cfg, kept[op.key], kept[op.key], ops);
    }
    forall k | k in kept' && k !in swept' ensures StaleIn(cfg, kept'[k], ops) {
      if k !in swept {
        StaleStays(cfg, kept[k], kept'[k], ops);
      } else {
        assert op.EvictOp? && Stale(kept[k], ops[|ops| - 1].now, cfg);
      }
    }
  }

  lemma WithoutEvictionsStep(ops: seq<Op>, cfg: Config, op: Op)
    ensures Run(cfg, map[], ops + [op]) == After(cfg, Run(cfg, map[], ops), op)
    ensures Answers(cfg, map[], ops + [op])
            == Answers(cfg, map[], ops)
               + if op.AttemptOp? then [Answered(cfg, Run(cfg, map[], ops), op.key, op.now)] else []
  {
    assert (ops + [op])[..|ops|] == ops;
  }

  lemma PrefixAscends(ops: seq<Op>)
    requires ops != [] && AttemptsAscend(ops)
    ensures AttemptsAscend(ops[..|ops| - 1])
  {
    var before := ops[..|ops| - 1];
    assert forall i :: 0 <= i < |before| ==> before[i] == ops[i];
  }

  lemma {:induction false} SweptRunMatches(cfg: Config, ops: seq<Op>)
    requires AttemptsAscend(ops)
    ensures SameButStale(cfg, Run(cfg, map[], ops), Run(cfg, map[], WithoutEvictions(ops)), ops)
    ensures Answers(cfg, map[], ops) == Answers(cfg, map[], WithoutEvictions(ops))
  {
    if ops != [] {
      hide SameButStale, After, Answered, AttemptsAscend;
      var before, op := ops[..|ops| - 1], ops[|ops| - 1];
      PrefixAscends(ops);
      SweptRunMatches(cfg, before);
      StepKeepsSameButStale(cfg, Run(cfg, map[], before), Run(cfg, map[], WithoutEvictions(before)), ops);
      WithoutEvictionsStep(WithoutEvictions(before), cfg, op);
      assert WithoutEvictions(before) + [] == WithoutEvictions(before);
    }
  }

  /** Sweeping is invisible. Whenever and however often stale entries are evicted, by however late a clock, every attempt
      of the run is answered as if none ever were. */
  lemma EvictionIsInvisible(cfg: Config, ops: seq<Op>)
    requires AttemptsAscend(ops)
    ensures Answers(cfg, map[], ops) == Answers(cfg, map[], WithoutEvictions(ops))
  {
    SweptRunMatches(cfg, ops);
  }
}
