/** The fixed-window counter: sixteen independently locked maps that answer as one. */
module Window {
  import opened Market
  import opened Limits

  datatype Counter = Counter(count: int, windowStart: Time, window: Time)

  type Entries = map<Key, Counter>

  const SHARD_COUNT: nat := 16

  // ---- one map, as values

  predicate Opens(m: Entries, key: Key, window: Time, now: Time) {
    key !in m || now - m[key].windowStart >= window
  }

  predicate Admits(m: Entries, key: Key, limit: int, window: Time, now: Time) {
    Opens(m, key, window, now) || m[key].count < limit
  }

  function Answered(m: Entries, key: Key, limit: int, window: Time, now: Time): Answer {
    if Admits(m, key, limit, window, now) then Allowed else Refused(window - (now - m[key].windowStart))
  }

  function AfterAllow(m: Entries, key: Key, limit: int, window: Time, now: Time): Entries {
    if Opens(m, key, window, now) then m[key := Counter(1, now, window)]
    else if m[key].count >= limit then m
    else m[key := m[key].(count := m[key].count + 1)]
  }

  predicate Elapsed(c: Counter, now: Time) {
    now - c.windowStart >= c.window
  }

  function WithoutStale(m: Entries, now: Time): Entries {
    map k | k in m && !Elapsed(m[k], now) :: m[k]
  }

  /** A refusal says exactly when the key's window ends: refused until then, admitted then. */
  lemma RetryAfterIsExact(m: Entries, key: Key, limit: int, window: Time, now: Time, later: Time)
    requires Answered(m, key, limit, window, now).Refused? && now <= later
    ensures var wait := Answered(m, key, limit, window, now).retryAfter;
            wait > 0 && (Admits(m, key, limit, window, later) <==> later >= now + wait)
  {}

  // ---- the object

  /** hash stands for FNV-1a, or for anything else. */
  class MemoryStore {
    const hash: Key -> nat
    var shards: array<Entries>

    ghost predicate Valid()
      reads this
    {
      shards.Length == SHARD_COUNT
    }

    constructor (hash: Key -> nat)
      ensures Valid() && fresh(shards) && this.hash == hash
      ensures forall i :: 0 <= i < SHARD_COUNT ==> shards[i] == map[]
    {
      this.hash := hash;
      this.shards := new Entries[SHARD_COUNT](_ => map[]);
    }

    function ShardFor(key: Key): (i: nat)
      ensures i < SHARD_COUNT
    {
      hash(key) % SHARD_COUNT
    }

    method Allow(key: Key, limit: int, window: Time, now: Time) returns (r: Answer)
      requires Valid()
      modifies shards
      ensures Valid()
      ensures r == Answered(old(shards[ShardFor(key)]), key, limit, window, now)
      ensures shards[..]
              == old(shards[..])[ShardFor(key) := AfterAllow(old(shards[ShardFor(key)]), key, limit, window, now)]
    {
      var sh := ShardFor(key);
      var entries := shards[sh];
      if key !in entries || now - entries[key].windowStart >= window {
        shards[sh] := entries[key := Counter(1, now, window)];
        return Allowed;
      }
      var c := entries[key];
      if c.count >= limit {
        assert shards[..] == old(shards[..])[sh := entries];
        return Refused(window - (now - c.windowStart));
      }
      shards[sh] := entries[key := c.(count := c.count + 1)];
      return Allowed;
    }

    method SweepShard(i: nat, now: Time)
      requires Valid() && i < SHARD_COUNT
      modifies shards
      ensures Valid() && shards[..] == old(shards[..])[i := WithoutStale(old(shards[i]), now)]
    {
      var entries := shards[i];
      var left := entries.Keys;
      while left != {}
        invariant left <= entries.Keys && left <= old(shards[i]).Keys
        invariant forall k :: k in entries <==> k in old(shards[i]) && (k in left || !Elapsed(old(shards[i])[k], now))
        invariant forall k :: k in entries ==> entries[k] == old(shards[i])[k]
        invariant shards[..] == old(shards[..])
      {
        var key :| key in left;
        if Elapsed(entries[key], now) {
          entries := entries - {key};
        }
        left := left - {key};
      }
      assert entries == WithoutStale(old(shards[i]), now);
      shards[i] := entries;
    }

    /** One clock reading, then one shard after another. */
    method EvictStale(now: Time)
      requires Valid()
      modifies shards
      ensures Valid()
      ensures forall i :: 0 <= i < SHARD_COUNT ==> shards[i] == WithoutStale(old(shards[i]), now)
    {
      for i := 0 to SHARD_COUNT
        invariant Valid() && shards == old(shards)
        invariant forall k :: 0 <= k < SHARD_COUNT ==>
                    shards[k] == if k < i then WithoutStale(old(shards[k]), now) else old(shards[k])
      {
        ghost var before := shards[..];
        SweepShard(i, now);
        assert forall k :: 0 <= k < SHARD_COUNT ==> shards[k] == shards[..][k] && (k != i ==> shards[k] == before[k]);
      }
    }
  }

  // ---- whole runs: each shard swept on its own, with whatever clock its sweeper had read

  datatype Op =
    | AllowOp(key: Key, limit: int, window: Time, now: Time)
    | SweepOp(shard: nat, now: Time)

  type Shards = int -> Entries

  ghost function OneShard(m: Shards, i: nat, entries: Entries): Shards {
    j => if j == i then entries else m(j)
  }

  ghost function After(hash: Key -> nat, m: Shards, op: Op): Shards {
    match op
    case AllowOp(key, limit, window, now) =>
      var i := hash(key) % SHARD_COUNT;
      OneShard(m, i, AfterAllow(m(i), key, limit, window, now))
    case SweepOp(i, now) => OneShard(m, i, WithoutStale(m(i), now))
  }

  ghost function Run(hash: Key -> nat, ops: seq<Op>): Shards {
    if ops == [] then _ => map[] else After(hash, Run(hash, ops[..|ops| - 1]), ops[|ops| - 1])
  }

  ghost function Answers(hash: Key -> nat, ops: seq<Op>): seq<Answer> {
    if ops == [] then []
    else
      var before, op := ops[..|ops| - 1], ops[|ops| - 1];
      Answers(hash, before)
      + match op
        case AllowOp(key, limit, window, now) =>
          [Answered(Run(hash, before)(hash(key) % SHARD_COUNT), key, limit, window, now)]
        case SweepOp(_, _) => []
  }

  // ---- the reference: one map, never swept

  function FlatAfter(m: Entries, op: Op): Entries {
    match op
    case AllowOp(key, limit, window, now) => AfterAllow(m, key, limit, window, now)
    case SweepOp(_, _) => m
  }

  function FlatRun(ops: seq<Op>): Entries {
    if ops == [] then map[] else FlatAfter(FlatRun(ops[..|ops| - 1]), ops[|ops| - 1])
  }

  function FlatAnswers(ops: seq<Op>): seq<Answer> {
    if ops == [] then []
    else
      var before, op := ops[..|ops| - 1], ops[|ops| - 1];
      FlatAnswers(before)
      + match op
        case AllowOp(key, limit, window, now) => [Answered(FlatRun(before), key, limit, window, now)]
        case SweepOp(_, _) => []
  }

  /** A request's clock reading is at least every reading before it. A sweeper may lag: it reads the clock once and
      takes the sixteen locks after. */
  ghost predicate RequestsAscend(ops: seq<Op>) {
    forall i, j :: 0 <= i < j < |ops| && ops[j].AllowOp? ==> ops[i].now <= ops[j].now
  }

  /** No request for the key asks about a longer window than the one its entry was opened with. */
  ghost predicate WindowsFit(ops: seq<Op>, key: Key) {
    forall i :: 0 <= i < |ops| && ops[i].AllowOp? && ops[i].key == key ==> FitsEntry(FlatRun(ops[..i]), ops[i])
  }

  predicate FitsEntry(m: Entries, op: Op)
    requires op.AllowOp?
  {
    op.key in m ==> op.window <= m[op.key].window
  }

  /** What a swept shard and the reference make of a key: the same, or the reference keeps a window that has passed. */
  ghost predicate KeyAgrees(swept: Entries, flat: Entries, key: Key, ops: seq<Op>) {
    && (key in swept ==> key in flat && swept[key] == flat[key])
    && (key in flat && key !in swept ==> PassedIn(flat[key], ops))
  }

  ghost predicate PassedIn(c: Counter, ops: seq<Op>) {
    exists i :: 0 <= i < |ops| && Elapsed(c, ops[i].now)
  }

  lemma PrefixAscends(ops: seq<Op>)
    requires ops != [] && RequestsAscend(ops)
    ensures RequestsAscend(ops[..|ops| - 1])
  {
    var before := ops[..|ops| - 1];
    assert forall i :: 0 <= i < |before| ==> before[i] == ops[i];
  }

  lemma PrefixFits(ops: seq<Op>, key: Key)
    requires ops != [] && WindowsFit(ops, key)
    ensures WindowsFit(ops[..|ops| - 1], key)
  {
    var before := ops[..|ops| - 1];
    assert forall i :: 0 <= i < |before| ==> before[i] == ops[i] && before[..i] == ops[..i];
  }

  lemma PassedStaysPassed(c: Counter, ops: seq<Op>)
    requires ops != [] && PassedIn(c, ops[..|ops| - 1])
    ensures PassedIn(c, ops)
  {
    var i :| 0 <= i < |ops| - 1 && Elapsed(c, ops[..|ops| - 1][i].now);
    assert Elapsed(c, ops[i].now);
  }

  /** An absent key and a passed window are answered alike and leave the same entry behind. */
  lemma RequestAgrees(swept: Entries, flat: Entries, ops: seq<Op>)
    requires ops != [] && ops[|ops| - 1].AllowOp? && RequestsAscend(ops)
    requires FitsEntry(flat, ops[|ops| - 1])
    requires KeyAgrees(swept, flat, ops[|ops| - 1].key, ops[..|ops| - 1])
    ensures var op := ops[|ops| - 1];
            && Answered(swept, op.key, op.limit, op.window, op.now) == Answered(flat, op.key, op.limit, op.window, op.now)
            && KeyAgrees(AfterAllow(swept, op.key, op.limit, op.window, op.now),
                         AfterAllow(flat, op.key, op.limit, op.window, op.now), op.key, ops)
  {
    var op := ops[|ops| - 1];
    if op.key in flat && op.key !in swept {
      var i :| 0 <= i < |ops| - 1 && Elapsed(flat[op.key], ops[..|ops| - 1][i].now);
      assert ops[i].now <= op.now;
    }
  }

  lemma OtherKeyAgrees(hash: Key -> nat, ops: seq<Op>, key: Key)
    requires ops != []
    requires var before, op := ops[..|ops| - 1], ops[|ops| - 1];
             && (op.AllowOp? ==> op.key != key)
             && KeyAgrees(Run(hash, before)(hash(key) % SHARD_COUNT), FlatRun(before), key, before)
    ensures KeyAgrees(Run(hash, ops)(hash(key) % SHARD_COUNT), FlatRun(ops), key, ops)
  {
    var before, op := ops[..|ops| - 1], ops[|ops| - 1];
    var m, swept, flat := Run(hash, before), Run(hash, before)(hash(key) % SHARD_COUNT), FlatRun(before);
    if key in flat {
      if key !in swept {
        PassedStaysPassed(flat[key], ops);
      } else if op.SweepOp? && Elapsed(flat[key], op.now) {
        assert Elapsed(flat[key], ops[|ops| - 1].now);
      }
    }
  }

  lemma {:induction false} KeyStaysAgreed(hash: Key -> nat, ops: seq<Op>, key: Key)
    requires RequestsAscend(ops) && WindowsFit(ops, key)
    ensures KeyAgrees(Run(hash, ops)(hash(key) % SHARD_COUNT), FlatRun(ops), key, ops)
  {
    if ops != [] {
      var before, op := ops[..|ops| - 1], ops[|ops| - 1];
      PrefixAscends(ops);
      PrefixFits(ops, key);
      KeyStaysAgreed(hash, before, key);
      if op.AllowOp? && op.key == key {
        assert FitsEntry(FlatRun(before), op);
        hide KeyAgrees, Answered, AfterAllow, WithoutStale, RequestsAscend, WindowsFit, FitsEntry;
        RequestAgrees(Run(hash, before)(hash(key) % SHARD_COUNT), FlatRun(before), ops);
      } else {
        OtherKeyAgrees(hash, ops, key);
      }
    }
  }

  lemma LastAnswerAgrees(hash: Key -> nat, ops: seq<Op>)
    requires ops != [] && ops[|ops| - 1].AllowOp? && RequestsAscend(ops) && WindowsFit(ops, ops[|ops| - 1].key)
    ensures var before, op := ops[..|ops| - 1], ops[|ops| - 1];
            Answered(Run(hash, before)(hash(op.key) % SHARD_COUNT), op.key, op.limit, op.window, op.now)
            == Answered(FlatRun(before), op.key, op.limit, op.window, op.now)
  {
    var before, op := ops[..|ops| - 1], ops[|ops| - 1];
    PrefixAscends(ops);
    PrefixFits(ops, op.key);
    KeyStaysAgreed(hash, before, op.key);
    assert FitsEntry(FlatRun(before), op);
    RequestAgrees(Run(hash, before)(hash(op.key) % SHARD_COUNT), FlatRun(before), ops);
  }

  /** Sharding and sweeping are invisible. For any hash, with every shard swept whenever and by however late a clock,
      the sixteen maps answer every request as one map that is never swept, as long as no request asks about a longer
      window than its key's entry was opened with. */
  lemma {:induction false} ShardedStoreIsOneMap(hash: Key -> nat, ops: seq<Op>)
    requires RequestsAscend(ops) && forall key :: WindowsFit(ops, key)
    ensures Answers(hash, ops) == FlatAnswers(ops)
  {
    if ops != [] {
      hide RequestsAscend, WindowsFit, Answered;
      var before := ops[..|ops| - 1];
      PrefixAscends(ops);
      forall key ensures WindowsFit(before, key) {
        PrefixFits(ops, key);
      }
      ShardedStoreIsOneMap(hash, before);
      if ops[|ops| - 1].AllowOp? {
        LastAnswerAgrees(hash, ops);
      }
    }
  }

  /** One request over a shard and the reference, which last agreed: the sweep shows, in the answer or in the entry
      left behind, exactly when it took an entry whose start is still inside the window now asked about; and in the
      answer exactly when, besides, that entry was full. So it shows only where the window asked about is the longer. */
  lemma SweepShowsIff(swept: Entries, flat: Entries, ops: seq<Op>)
    requires ops != [] && ops[|ops| - 1].AllowOp? && RequestsAscend(ops)
    requires KeyAgrees(swept, flat, ops[|ops| - 1].key, ops[..|ops| - 1])
    ensures var op := ops[|ops| - 1];
            var taken := op.key in flat && op.key !in swept && op.now - flat[op.key].windowStart < op.window;
            && (taken && flat[op.key].count >= op.limit <==>
                  Answered(swept, op.key, op.limit, op.window, op.now)
                  != Answered(flat, op.key, op.limit, op.window, op.now))
            && (taken <==> AfterAllow(swept, op.key, op.limit, op.window, op.now)[op.key]
                           != AfterAllow(flat, op.key, op.limit, op.window, op.now)[op.key])
            && (taken ==> !FitsEntry(flat, op))
  {
    var op := ops[|ops| - 1];
    if op.key in flat && op.key !in swept {
      var i :| 0 <= i < |ops| - 1 && Elapsed(flat[op.key], ops[..|ops| - 1][i].now);
      assert ops[i].now <= op.now;
    }
  }

  lemma AnswersStep(hash: Key -> nat, ops: seq<Op>, op: Op)
    requires op.AllowOp?
    ensures Answers(hash, ops + [op])
            == Answers(hash, ops) + [Answered(Run(hash, ops)(hash(op.key) % SHARD_COUNT), op.key, op.limit, op.window, op.now)]
    ensures FlatAnswers(ops + [op]) == FlatAnswers(ops) + [Answered(FlatRun(ops), op.key, op.limit, op.window, op.now)]
  {
    assert (ops + [op])[..|ops|] == ops;
  }

  lemma RunStep(hash: Key -> nat, ops: seq<Op>, op: Op)
    ensures Run(hash, ops + [op]) == After(hash, Run(hash, ops), op)
    ensures FlatRun(ops + [op]) == FlatAfter(FlatRun(ops), op)
    ensures op.SweepOp? ==> Answers(hash, ops + [op]) == Answers(hash, ops) && FlatAnswers(ops + [op]) == FlatAnswers(ops)
  {
    assert (ops + [op])[..|ops|] == ops;
  }

  /** With two windows on one key the sweep can tell: it goes by the window the entry was opened with. */
  lemma MixedWindowsDiffer(hash: Key -> nat)
    ensures var ops := [AllowOp("a", 1, 1, 0), SweepOp(hash("a") % SHARD_COUNT, 1), AllowOp("a", 1, 10, 2)];
            Answers(hash, ops) == [Allowed, Allowed] && FlatAnswers(ops) == [Allowed, Refused(8)]
  {
    hide Run, Answers, FlatRun, FlatAnswers;
    var first, sweep, second := AllowOp("a", 1, 1, 0), SweepOp(hash("a") % SHARD_COUNT, 1), AllowOp("a", 1, 10, 2);
    NothingRun(hash);
    AnswersStep(hash, [], first);
    RunStep(hash, [], first);
    RunStep(hash, [] + [first], sweep);
    AnswersStep(hash, [] + [first] + [sweep], second);
    assert [] + [first] + [sweep] + [second] == [first, sweep, second];
    assert FlatRun([] + [first] + [sweep]) == map["a" := Counter(1, 0, 1)];
    assert Run(hash, [] + [first] + [sweep])(hash("a") % SHARD_COUNT) == map[];
  }

  lemma NothingRun(hash: Key -> nat)
    ensures FlatRun([]) == map[] && Answers(hash, []) == [] && FlatAnswers([]) == []
    ensures forall i :: Run(hash, [])(i) == map[]
  {}

  // ---- the bound

  function Most(limit: int): (most: int)
    ensures most >= 1
  {
    if limit < 1 then 1 else limit
  }

  /** The key is always used with this limit and this window. */
  ghost predicate OneUse(ops: seq<Op>, key: Key, limit: int, window: Time) {
    forall i :: 0 <= i < |ops| && ops[i].AllowOp? && ops[i].key == key ==> ops[i].limit == limit && ops[i].window == window
  }

  /** How many of a run's requests for a key were let through between two clock readings, both included. */
  function AdmittedIn(ops: seq<Op>, key: Key, from: Time, until: Time): nat {
    if ops == [] then 0
    else
      var before, op := ops[..|ops| - 1], ops[|ops| - 1];
      AdmittedIn(before, key, from, until)
      + if op.AllowOp? && op.key == key && from <= op.now <= until
           && Answered(FlatRun(before), key, op.limit, op.window, op.now).Allowed? then 1 else 0
  }

  ghost predicate AllBy(ops: seq<Op>, key: Key, until: Time) {
    forall i :: 0 <= i < |ops| && ops[i].AllowOp? && ops[i].key == key ==> ops[i].now <= until
  }

  ghost predicate ReachedBy(ops: seq<Op>, from: Time) {
    exists i :: 0 <= i < |ops| && from <= ops[i].now
  }

  lemma {:induction false} AdmittedMeansReached(ops: seq<Op>, key: Key, from: Time, until: Time)
    requires AdmittedIn(ops, key, from, until) > 0
    ensures ReachedBy(ops, from)
  {
    var before, op := ops[..|ops| - 1], ops[|ops| - 1];
    if op.AllowOp? && op.key == key && from <= op.now {
      assert from <= ops[|ops| - 1].now;
    } else {
      AdmittedMeansReached(before, key, from, until);
      var i :| 0 <= i < |before| && from <= before[i].now;
      assert from <= ops[i].now;
    }
  }

  /** Where a key stands: the windows it has used up since from, full or not, and the one it is in. */
  ghost predicate Accounts(c: Counter, admitted: nat, used: nat, limit: int, window: Time, from: Time, until: Time) {
    && 1 <= c.count <= Most(limit) && c.windowStart <= until
    && admitted <= used * Most(limit) + c.count
    && (admitted == 0 ==> used == 0)
    && (admitted > 0 ==> from < c.windowStart + window)
    && (used > 0 ==> (used - 1) * window < c.windowStart - from)
  }

  ghost predicate Standing(m: Entries, key: Key, admitted: nat, used: nat, limit: int, window: Time, from: Time, until: Time) {
    if key in m then Accounts(m[key], admitted, used, limit, window, from, until) else admitted == 0 && used == 0
  }

  /** A window that opens after one that counted is one more window used. */
  lemma NextWindow(c: Counter, admitted: nat, used: nat, limit: int, window: Time, from: Time, until: Time, now: Time)
    requires window > 0 && Accounts(c, admitted, used, limit, window, from, until) && admitted > 0
    requires c.windowStart + window <= now <= until
    ensures Accounts(Counter(1, now, window), admitted + 1, used + 1, limit, window, from, until)
  {
    assert (used + 1) * Most(limit) == used * Most(limit) + Most(limit);
    if used > 0 {
      assert used * window == (used - 1) * window + window;
    }
  }

  lemma RequestStands(m: Entries, op: Op, admitted: nat, used: nat, limit: int, window: Time, from: Time, until: Time)
    returns (now_used: nat)
    requires op.AllowOp? && op.limit == limit && op.window == window > 0 && op.now <= until
    requires Standing(m, op.key, admitted, used, limit, window, from, until) && (admitted > 0 ==> from <= op.now)
    ensures var more := if from <= op.now <= until && Answered(m, op.key, limit, window, op.now).Allowed? then 1 else 0;
            Standing(FlatAfter(m, op), op.key, admitted + more, now_used, limit, window, from, until)
  {
    now_used := used;
    if Opens(m, op.key, window, op.now) && admitted > 0 {
      NextWindow(m[op.key], admitted, used, limit, window, from, until, op.now);
      now_used := used + 1;
    }
  }

  lemma {:induction false} CountedByWindow(ops: seq<Op>, key: Key, limit: int, window: Time, from: Time, until: Time)
    returns (used: nat)
    requires window > 0 && RequestsAscend(ops) && OneUse(ops, key, limit, window) && AllBy(ops, key, until)
    ensures Standing(FlatRun(ops), key, AdmittedIn(ops, key, from, until), used, limit, window, from, until)
  {
    if ops == [] {
      used := 0;
    } else {
      hide Answered, AfterAllow, Accounts;
      var before, op := ops[..|ops| - 1], ops[|ops| - 1];
      assert forall i :: 0 <= i < |before| ==> before[i] == ops[i];
      used := CountedByWindow(before, key, limit, window, from, until);
      if op.AllowOp? && op.key == key {
        if AdmittedIn(before, key, from, until) > 0 {
          AdmittedMeansReached(before, key, from, until);
          var i :| 0 <= i < |before| && from <= before[i].now;
          assert ops[i].now <= ops[|ops| - 1].now;
        }
        used := RequestStands(FlatRun(before), op, AdmittedIn(before, key, from, until), used, limit, window, from, until);
      } else if op.AllowOp? {
        OtherKeyUntouched(FlatRun(before), op, key);
      }
    }
  }

  lemma OtherKeyUntouched(m: Entries, op: Op, key: Key)
    requires op.AllowOp? && op.key != key
    ensures key in FlatAfter(m, op) <==> key in m
    ensures key in m ==> FlatAfter(m, op)[key] == m[key]
  {}

  lemma ProductNonnegative(x: int, y: int)
    requires x >= 0 && y >= 0
    ensures x * y >= 0
  {}

  lemma SmallerFactor(x: int, y: int, factor: int)
    requires factor > 0 && x * factor < y * factor
    ensures x < y
  {
    assert (x - y) * factor == x * factor - y * factor;
    if x >= y {
      ProductNonnegative(x - y, factor);
    }
  }

  lemma FewerWindows(used: nat, k: nat, window: Time, most: int)
    requires window > 0 && most >= 1 && (used > 0 ==> (used - 1) * window < k * window)
    ensures used <= k && used * most + most <= (k + 1) * most
  {
    if used > 0 {
      SmallerFactor(used - 1, k, window);
    }
    ProductNonnegative(k - used, most);
    assert (k - used) * most == k * most - used * most;
    assert (k + 1) * most == k * most + most;
  }

  /** The fixed-window bound. A key used with one limit and one window is let through at most k + 1 limits' worth of
      times in any closed stretch of at most k windows, wherever the stretch begins. */
  lemma {:induction false} AtMostOneMoreWindow(ops: seq<Op>, key: Key, limit: int, window: Time, from: Time, until: Time, k: nat)
    requires window > 0 && RequestsAscend(ops) && OneUse(ops, key, limit, window) && until - from <= k * window
    ensures AdmittedIn(ops, key, from, until) <= (k + 1) * Most(limit)
  {
    if ops == [] {
      ProductNonnegative(k + 1, Most(limit));
    } else {
      var before, op := ops[..|ops| - 1], ops[|ops| - 1];
      assert forall i :: 0 <= i < |before| ==> before[i] == ops[i];
      if op.AllowOp? && op.key == key && op.now <= until {
        StandingIsBounded(ops, key, limit, window, from, until, k);
      } else {
        AtMostOneMoreWindow(before, key, limit, window, from, until, k);
      }
    }
  }

  lemma StandingIsBounded(ops: seq<Op>, key: Key, limit: int, window: Time, from: Time, until: Time, k: nat)
    requires window > 0 && RequestsAscend(ops) && OneUse(ops, key, limit, window) && AllBy(ops, key, until)
    requires until - from <= k * window
    ensures AdmittedIn(ops, key, from, until) <= (k + 1) * Most(limit)
  {
    hide AdmittedIn, FlatRun, Most;
    var used := CountedByWindow(ops, key, limit, window, from, until);
    if key in FlatRun(ops) {
      FewerWindows(used, k, window, Most(limit));
    } else {
      ProductNonnegative(k + 1, Most(limit));
    }
  }

  // ---- and the whole of it is granted

  lemma {:induction false} AdmittedGrows(ops: seq<Op>, key: Key, earlier: Time, from: Time, until: Time)
    requires earlier <= from
    ensures AdmittedIn(ops, key, from, until) <= AdmittedIn(ops, key, earlier, until)
  {
    if ops != [] {
      AdmittedGrows(ops[..|ops| - 1], key, earlier, from, until);
    }
  }

  /** A key's entry counts no more than was admitted since its window opened, and that was no later than any request to
      come. */
  lemma {:induction false} CountWasAdmitted(ops: seq<Op>, key: Key, until: Time)
    requires RequestsAscend(ops) && AllBy(ops, key, until) && key in FlatRun(ops)
    ensures var c := FlatRun(ops)[key];
            c.count <= AdmittedIn(ops, key, c.windowStart, until) && ReachedBy(ops, c.windowStart)
  {
    var before, op := ops[..|ops| - 1], ops[|ops| - 1];
    assert forall i :: 0 <= i < |before| ==> before[i] == ops[i];
    if op.AllowOp? && op.key == key {
      var m := FlatRun(before);
      assert ops[|ops| - 1].now == op.now;
      if !Opens(m, key, op.window, op.now) {
        CountWasAdmitted(before, key, until);
        var i :| 0 <= i < |before| && m[key].windowStart <= before[i].now;
        assert m[key].windowStart <= ops[i].now <= op.now;
      }
    } else {
      if op.AllowOp? {
        OtherKeyUntouched(FlatRun(before), op, key);
      }
      CountWasAdmitted(before, key, until);
      var i :| 0 <= i < |before| && FlatRun(before)[key].windowStart <= before[i].now;
      assert FlatRun(ops)[key].windowStart <= ops[i].now;
    }
  }

  /** No request is refused before its key's budget is spent: a refused one finds at least its limit admitted within its
      window, whatever windows and limits the earlier ones had. */
  lemma RefusedOnlyWhenSpent(ops: seq<Op>, op: Op)
    requires op.AllowOp? && RequestsAscend(ops + [op])
    requires Answered(FlatRun(ops), op.key, op.limit, op.window, op.now).Refused?
    ensures op.limit <= AdmittedIn(ops, op.key, op.now - op.window + 1, op.now)
  {
    var all, c := ops + [op], FlatRun(ops)[op.key];
    assert forall i :: 0 <= i < |ops| ==> all[i] == ops[i];
    assert all[|ops|] == op;
    CountWasAdmitted(ops, op.key, op.now);
    AdmittedGrows(ops, op.key, op.now - op.window + 1, c.windowStart, op.now);
  }

  /** The same count, taken from what the sharded store answered. */
  ghost function ShardedAdmittedIn(hash: Key -> nat, ops: seq<Op>, key: Key, from: Time, until: Time): nat {
    if ops == [] then 0
    else
      var before, op := ops[..|ops| - 1], ops[|ops| - 1];
      ShardedAdmittedIn(hash, before, key, from, until)
      + if op.AllowOp? && op.key == key && from <= op.now <= until
           && Answered(Run(hash, before)(hash(key) % SHARD_COUNT), key, op.limit, op.window, op.now).Allowed? then 1 else 0
  }

  lemma {:induction false} ShardedCountsAlike(hash: Key -> nat, ops: seq<Op>, key: Key, from: Time, until: Time)
    requires RequestsAscend(ops) && WindowsFit(ops, key)
    ensures ShardedAdmittedIn(hash, ops, key, from, until) == AdmittedIn(ops, key, from, until)
  {
    if ops != [] {
      hide Answered, RequestsAscend, WindowsFit;
      PrefixAscends(ops);
      PrefixFits(ops, key);
      ShardedCountsAlike(hash, ops[..|ops| - 1], key, from, until);
      if ops[|ops| - 1].AllowOp? && ops[|ops| - 1].key == key {
        LastAnswerAgrees(hash, ops);
      }
    }
  }

  /** A key used with one window never asks about a longer one. */
  lemma {:induction false} OneUseFits(ops: seq<Op>, key: Key, limit: int, window: Time)
    requires OneUse(ops, key, limit, window)
    ensures WindowsFit(ops, key) && (key in FlatRun(ops) ==> FlatRun(ops)[key].window == window)
  {
    if ops != [] {
      var before, op := ops[..|ops| - 1], ops[|ops| - 1];
      assert forall i :: 0 <= i < |before| ==> before[i] == ops[i] && before[..i] == ops[..i];
      OneUseFits(before, key, limit, window);
    }
  }

  /** So the store that runs, sharded and swept, keeps the bound for every key used with one limit and one window,
      whatever the other keys do. */
  lemma StoreKeepsTheBound(hash: Key -> nat, ops: seq<Op>, key: Key, limit: int, window: Time, from: Time, until: Time,
                          k: nat)
    requires RequestsAscend(ops) && OneUse(ops, key, limit, window)
    requires window > 0 && until - from <= k * window
    ensures ShardedAdmittedIn(hash, ops, key, from, until) <= (k + 1) * Most(limit)
  {
    OneUseFits(ops, key, limit, window);
    ShardedCountsAlike(hash, ops, key, from, until);
    AtMostOneMoreWindow(ops, key, limit, window, from, until, k);
  }
}
