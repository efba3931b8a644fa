/** What a key's count of failures stands for, exactly, and the two kinds of outcome that put it wrong. */
module LoginCounts {
  import opened Market
  import opened Limits
  import opened Login
  import B = Backoff

  // ---- what has happened since a key was last cleared

  /** The key's wrong passwords, and its requests still waiting that were let in, since its last clear. */
  datatype Tally = Tally(wrong: nat, own: set<RequestId>)

  /** A key is cleared by a success, by a sweep that finds it stale, and by an attempt that finds it stale. */
  predicate Clears(cfg: B.Config, s: Sys, e: Event, key: Key) {
    Enabled(s, e) &&
    match e
    case Arrive(_, k, now) => k == key != "" && key in s.attempts && B.Stale(s.attempts[key], now, cfg)
    case Settle(q, status) => s.requests[q].key == key && status == STATUS_OK
    case Sweep(now) => key in s.attempts && B.Stale(s.attempts[key], now, cfg)
  }

  predicate LetsIn(cfg: B.Config, s: Sys, e: Event, key: Key) {
    e.Arrive? && Enabled(s, e) && e.key == key != "" && B.Answered(cfg, s.attempts, key, e.now).Allowed?
  }

  predicate SettlesFor(s: Sys, e: Event, key: Key) {
    e.Settle? && Enabled(s, e) && s.requests[e.request].key == key
  }

  function TallyStep(cfg: B.Config, s: Sys, t: Tally, e: Event, key: Key): Tally {
    var from := if Clears(cfg, s, e, key) then Tally(0, {}) else t;
    if LetsIn(cfg, s, e, key) then from.(own := from.own + {e.request})
    else if SettlesFor(s, e, key)
    then Tally(from.wrong + if e.status == STATUS_UNAUTHORIZED then 1 else 0, from.own - {e.request})
    else from
  }

  function SinceClear(cfg: B.Config, events: seq<Event>, key: Key): Tally {
    if events == [] then Tally(0, {})
    else
      var before, last := events[..|events| - 1], events[|events| - 1];
      TallyStep(cfg, Run(cfg, before), SinceClear(cfg, before, key), last, key)
  }

  function Count(s: Sys, key: Key): int {
    if key in s.attempts then s.attempts[key].failures else 0
  }

  /** What the count stands for. */
  function Owed(t: Tally): nat {
    t.wrong + |t.own|
  }

  // ---- how it can come to differ

  /** An outcome of a request the last clear left behind: a wrong password nobody counts, or an error that takes back a
      failure not its own. */
  predicate Loses(s: Sys, t: Tally, e: Event, key: Key) {
    SettlesFor(s, e, key) && e.request !in t.own
    && (e.status == STATUS_UNAUTHORIZED || (e.status != STATUS_OK && key in s.attempts))
  }

  /** An error of a request whose own failure has already been taken back by another's. */
  predicate MakesGood(s: Sys, t: Tally, e: Event, key: Key) {
    SettlesFor(s, e, key) && e.request in t.own
    && e.status != STATUS_UNAUTHORIZED && e.status != STATUS_OK && key !in s.attempts
  }

  /** Failures lost since the last clear, less those made good. */
  function Missing(cfg: B.Config, events: seq<Event>, key: Key): int {
    if events == [] then 0
    else
      var before, e := events[..|events| - 1], events[|events| - 1];
      var s, t := Run(cfg, before), SinceClear(cfg, before, key);
      if Clears(cfg, s, e, key) then 0
      else Missing(cfg, before, key) + (if Loses(s, t, e, key) then 1 else if MakesGood(s, t, e, key) then -1 else 0)
  }

  // ---- the law

  ghost predicate Tracks(s: Sys, t: Tally, missing: int, key: Key) {
    && t.own <= OutstandingFor(s, key)
    && (key in s.attempts ==> s.attempts[key].failures >= 1)
    && Count(s, key) + missing == Owed(t) && missing >= 0
  }

  lemma OwnStayOutstanding(cfg: B.Config, s: Sys, t: Tally, e: Event, key: Key)
    requires t.own <= OutstandingFor(s, key)
    ensures TallyStep(cfg, s, t, e, key).own <= OutstandingFor(Step(cfg, s, e), key)
  {
    hide B.Answered, B.AfterAttempt, B.Stale, B.AfterUndo, B.WithoutStale;
    assert forall q :: q in t.own ==> q in OutstandingFor(s, key);
  }

  lemma ArriveTracks(cfg: B.Config, s: Sys, t: Tally, missing: int, e: Event, key: Key)
    requires Tracks(s, t, missing, key) && e.Arrive? && Enabled(s, e)
    ensures Tracks(Step(cfg, s, e), TallyStep(cfg, s, t, e, key), if Clears(cfg, s, e, key) then 0 else missing, key)
  {
    hide B.Delay;
    OwnStayOutstanding(cfg, s, t, e, key);
    assert e.request !in OutstandingFor(s, key);
    hide OutstandingFor;
    assert e.request !in t.own;
  }

  lemma OneFewer(own: set<RequestId>, q: RequestId)
    ensures |own - {q}| == |own| - if q in own then 1 else 0
  {
    if q in own {
      assert own == own - {q} + {q};
    } else {
      assert own == own - {q};
    }
  }

  lemma SettleTracks(cfg: B.Config, s: Sys, t: Tally, missing: int, e: Event, key: Key)
    requires Tracks(s, t, missing, key) && e.Settle? && Enabled(s, e)
    ensures var missing' := if Clears(cfg, s, e, key) then 0
                            else missing + if Loses(s, t, e, key) then 1 else if MakesGood(s, t, e, key) then -1 else 0;
            Tracks(Step(cfg, s, e), TallyStep(cfg, s, t, e, key), missing', key)
  {
    OwnStayOutstanding(cfg, s, t, e, key);
    OneFewer(t.own, e.request);
    hide OutstandingFor;
  }

  lemma StepTracks(cfg: B.Config, s: Sys, t: Tally, missing: int, e: Event, key: Key)
    requires Tracks(s, t, missing, key)
    ensures var missing' := if Clears(cfg, s, e, key) then 0
                            else missing + if Loses(s, t, e, key) then 1 else if MakesGood(s, t, e, key) then -1 else 0;
            Tracks(Step(cfg, s, e), TallyStep(cfg, s, t, e, key), missing', key)
  {
    if Enabled(s, e) && e.Arrive? {
      ArriveTracks(cfg, s, t, missing, e, key);
    } else if Enabled(s, e) && e.Settle? {
      SettleTracks(cfg, s, t, missing, e, key);
    } else {
      assert OutstandingFor(Step(cfg, s, e), key) == OutstandingFor(s, key);
    }
  }

  lemma {:induction false} RunTracks(cfg: B.Config, events: seq<Event>, key: Key)
    ensures Tracks(Run(cfg, events), SinceClear(cfg, events, key), Missing(cfg, events, key), key)
  {
    if events != [] {
      hide Step, Tracks, TallyStep, Clears, Loses, MakesGood;
      var before, e := events[..|events| - 1], events[|events| - 1];
      RunTracks(cfg, before, key);
      StepTracks(cfg, Run(cfg, before), SinceClear(cfg, before, key), Missing(cfg, before, key), e, key);
    }
  }

  /** The exact law. In every interleaving a key's count is its wrong passwords since its last clear, plus its requests
      still waiting that were let in since, less what late outcomes have lost: never more than it stands for. */
  lemma CountIsOwedLessMissing(cfg: B.Config, events: seq<Event>, key: Key)
    ensures Count(Run(cfg, events), key) == Owed(SinceClear(cfg, events, key)) - Missing(cfg, events, key)
    ensures Missing(cfg, events, key) >= 0
    ensures key in Run(cfg, events).attempts <==> Count(Run(cfg, events), key) > 0
  {
    RunTracks(cfg, events, key);
  }

  ghost predicate Exact(cfg: B.Config, events: seq<Event>, key: Key) {
    Count(Run(cfg, events), key) == Owed(SinceClear(cfg, events, key))
  }

  ghost predicate LosesAt(cfg: B.Config, events: seq<Event>, n: nat, key: Key)
    requires n < |events|
  {
    Loses(Run(cfg, events[..n]), SinceClear(cfg, events[..n], key), events[n], key)
  }

  /** Where a count is right, one more event leaves it right unless it is such a late outcome, and such an outcome
      always leaves it one short. */
  lemma OneEventLoses(cfg: B.Config, events: seq<Event>, key: Key)
    requires events != [] && Exact(cfg, events[..|events| - 1], key)
    ensures var t := SinceClear(cfg, events, key);
            Count(Run(cfg, events), key) == Owed(t) - if LosesAt(cfg, events, |events| - 1, key) then 1 else 0
  {
    hide Tracks, Step, TallyStep, Run;
    var before, e := events[..|events| - 1], events[|events| - 1];
    RunTracks(cfg, before, key);
    CountIsOwedLessMissing(cfg, before, key);
    CountIsOwedLessMissing(cfg, events, key);
    NothingToMakeGood(Run(cfg, before), SinceClear(cfg, before, key), e, key);
    assert Loses(Run(cfg, before), SinceClear(cfg, before, key), e, key) ==> !Clears(cfg, Run(cfg, before), e, key);
  }

  lemma NothingToMakeGood(s: Sys, t: Tally, e: Event, key: Key)
    requires Tracks(s, t, 0, key)
    ensures !MakesGood(s, t, e, key)
  {}

  /** So a key's count is right all along a run exactly when no request left behind by a clear came back with a wrong
      password, or with an error while the key was tracked. */
  lemma {:induction false} ExactUnlessLate(cfg: B.Config, events: seq<Event>, key: Key)
    ensures (forall n :: 0 <= n <= |events| ==> Exact(cfg, events[..n], key))
            <==> (forall n :: 0 <= n < |events| ==> !LosesAt(cfg, events, n, key))
  {
    hide Exact, LosesAt;
    assert events[..|events|] == events;
    if events == [] {
      NothingIsExact(cfg, key);
    } else {
      var last := |events| - 1;
      var before := events[..last];
      ExactUnlessLate(cfg, before, key);
      assert forall n :: 0 <= n <= last ==> before[..n] == events[..n];
      forall n | 0 <= n < last ensures LosesAt(cfg, before, n, key) <==> LosesAt(cfg, events, n, key) {
        SameLoss(cfg, events, n, key);
      }
      if Exact(cfg, before, key) {
        LossIsSeen(cfg, events, key);
      }
    }
  }

  /** No late outcome since the key's last clear, whatever came before it. */
  predicate NoneLateSinceClear(cfg: B.Config, events: seq<Event>, key: Key) {
    events == []
    || var before, e := events[..|events| - 1], events[|events| - 1];
       var s := Run(cfg, before);
       Clears(cfg, s, e, key)
       || (NoneLateSinceClear(cfg, before, key) && !Loses(s, SinceClear(cfg, before, key), e, key))
  }

  /** Every clear is a fresh start: with no late outcome since the last one, a key is tracked exactly while something is
      owed, and its count is its wrong passwords plus its requests still waiting, since then. */
  lemma {:induction false} RightSinceClear(cfg: B.Config, events: seq<Event>, key: Key)
    requires NoneLateSinceClear(cfg, events, key)
    ensures Exact(cfg, events, key)
    ensures key in Run(cfg, events).attempts <==> Owed(SinceClear(cfg, events, key)) > 0
  {
    if events != [] {
      hide Run, Step, Tracks, TallyStep, Loses, MakesGood, Clears, Owed, Count;
      var before, e := events[..|events| - 1], events[|events| - 1];
      CountIsOwedLessMissing(cfg, events, key);
      if !Clears(cfg, Run(cfg, before), e, key) {
        RightSinceClear(cfg, before, key);
        CountIsOwedLessMissing(cfg, before, key);
        RunTracks(cfg, before, key);
        NothingToMakeGood(Run(cfg, before), SinceClear(cfg, before, key), e, key);
      }
    }
  }

  lemma NothingIsExact(cfg: B.Config, key: Key)
    ensures Exact(cfg, [], key)
  {}

  lemma SameLoss(cfg: B.Config, events: seq<Event>, n: nat, key: Key)
    requires n < |events| - 1
    ensures LosesAt(cfg, events[..|events| - 1], n, key) <==> LosesAt(cfg, events, n, key)
  {
    assert events[..|events| - 1][..n] == events[..n];
  }

  lemma LossIsSeen(cfg: B.Config, events: seq<Event>, key: Key)
    requires events != [] && Exact(cfg, events[..|events| - 1], key)
    ensures Exact(cfg, events, key) <==> !LosesAt(cfg, events, |events| - 1, key)
  {
    OneEventLoses(cfg, events, key);
  }

  // ---- the bound it keeps

  lemma ForgetStep(cfg: B.Config, s: Sys, t: Tally, e: Event, key: Key)
    requires t.wrong <= WrongSinceSuccess(s.verdicts, key)
    ensures TallyStep(cfg, s, t, e, key).wrong <= WrongSinceSuccess(Step(cfg, s, e).verdicts, key)
  {
    if e.Settle? && Enabled(s, e) {
      WrongStep(s.verdicts, Verdict(s.requests[e.request].key, e.status), key);
    }
  }

  /** What is owed since a clear is never more than the wrong passwords since the last success account for. */
  lemma {:induction false} ClearsForget(cfg: B.Config, events: seq<Event>, key: Key)
    ensures SinceClear(cfg, events, key).wrong <= WrongSinceSuccess(Run(cfg, events).verdicts, key)
  {
    if events != [] {
      var before, e := events[..|events| - 1], events[|events| - 1];
      ClearsForget(cfg, before, key);
      ForgetStep(cfg, Run(cfg, before), SinceClear(cfg, before, key), e, key);
    }
  }

  /** In every interleaving of arrivals, outcomes and sweeps, whatever the clocks read, a tracked key's count is at
      least one and at most its wrong passwords since it last signed in plus its requests still waiting: an outcome
      that is not a 401 never stays on the count. */
  lemma OnlyWrongPasswordsCount(cfg: B.Config, events: seq<Event>, key: Key)
    ensures var s := Run(cfg, events);
            key in s.attempts ==>
              1 <= s.attempts[key].failures <= WrongSinceSuccess(s.verdicts, key) + |OutstandingFor(s, key)|
  {
    RunTracks(cfg, events, key);
    ClearsForget(cfg, events, key);
    hide Run, WrongSinceSuccess, SinceClear, Missing;
    NoMore(SinceClear(cfg, events, key).own, OutstandingFor(Run(cfg, events), key));
  }

  lemma NoMore(a: set<RequestId>, b: set<RequestId>)
    requires a <= b
    ensures |a| <= |b|
  {
    assert b == a + (b - a);
  }

  /** Once everything has settled, a key with no wrong password since its last success is not tracked at all, however
      many upstream errors it met. */
  lemma OutagesLeaveNoTrace(cfg: B.Config, events: seq<Event>, key: Key)
    requires OutstandingFor(Run(cfg, events), key) == {} && WrongSinceSuccess(Run(cfg, events).verdicts, key) == 0
    ensures key !in Run(cfg, events).attempts
  {
    OnlyWrongPasswordsCount(cfg, events, key);
  }

  /** A request whose body names no account is never counted. */
  lemma {:induction false} NoKeyIsNeverCounted(cfg: B.Config, events: seq<Event>)
    ensures "" !in Run(cfg, events).attempts
    ensures forall q :: q in Run(cfg, events).requests ==> Run(cfg, events).requests[q] != Outstanding("")
  {
    if events != [] {
      hide B.Answered, B.Admits, B.Stale;
      NoKeyIsNeverCounted(cfg, events[..|events| - 1]);
    }
  }

  // ---- both kinds of loss happen

  /** A wrong password of a request let in before another's success, and answered after it, is never counted. */
  lemma LateWrongPasswordIsLost(cfg: B.Config)
    requires cfg.freeFailures >= 1 && cfg.maxDelay > 0
    ensures var s := Run(cfg, [Arrive(0, "a", 0), Arrive(1, "a", 0), Settle(0, 200), Settle(1, 401)]);
            WrongSinceSuccess(s.verdicts, "a") == 1 && OutstandingFor(s, "a") == {} && "a" !in s.attempts
  {
    hide Run, WrongSinceSuccess;
    NothingYet(cfg);
    var e2 := [] + [Arrive(0, "a", 0)] + [Arrive(1, "a", 0)];
    RunStep(cfg, [], Arrive(0, "a", 0));
    RunStep(cfg, [] + [Arrive(0, "a", 0)], Arrive(1, "a", 0));
    assert Run(cfg, e2) == Sys(map["a" := B.Attempt(2, 0)], map[0 := Outstanding("a"), 1 := Outstanding("a")], []);
    RunStep(cfg, e2, Settle(0, 200));
    RunStep(cfg, e2 + [Settle(0, 200)], Settle(1, 401));
    var e4 := e2 + [Settle(0, 200)] + [Settle(1, 401)];
    assert e4 == [Arrive(0, "a", 0), Arrive(1, "a", 0), Settle(0, 200), Settle(1, 401)];
    assert Run(cfg, e4) == Sys(map[], map[0 := Settled, 1 := Settled], [Verdict("a", 200)] + [Verdict("a", 401)]);
    WrongStep([], Verdict("a", 200), "a");
    assert [] + [Verdict("a", 200)] == [Verdict("a", 200)];
    WrongStep([Verdict("a", 200)], Verdict("a", 401), "a");
  }

  /** An error of such a request takes back a wrong password that was not its own. */
  lemma UndoCanTakeAnothersFailure(cfg: B.Config)
    requires cfg.freeFailures >= 2 && cfg.maxDelay > 0
    ensures var s := Run(cfg, [Arrive(0, "a", 0), Arrive(1, "a", 0), Settle(0, 200), Arrive(2, "a", 0), Settle(2, 401),
                               Settle(1, 502)]);
            WrongSinceSuccess(s.verdicts, "a") == 1 && OutstandingFor(s, "a") == {} && "a" !in s.attempts
  {
    hide Run, WrongSinceSuccess;
    NothingYet(cfg);
    var e2 := [] + [Arrive(0, "a", 0)] + [Arrive(1, "a", 0)];
    var e4 := e2 + [Settle(0, 200)] + [Arrive(2, "a", 0)];
    RunStep(cfg, [], Arrive(0, "a", 0));
    RunStep(cfg, [] + [Arrive(0, "a", 0)], Arrive(1, "a", 0));
    assert Run(cfg, e2) == Sys(map["a" := B.Attempt(2, 0)], map[0 := Outstanding("a"), 1 := Outstanding("a")], []);
    RunStep(cfg, e2, Settle(0, 200));
    RunStep(cfg, e2 + [Settle(0, 200)], Arrive(2, "a", 0));
    assert Run(cfg, e4) == Sys(map["a" := B.Attempt(1, 0)], map[0 := Settled, 1 := Outstanding("a"), 2 := Outstanding("a")],
                               [Verdict("a", 200)]);
    RunStep(cfg, e4, Settle(2, 401));
    RunStep(cfg, e4 + [Settle(2, 401)], Settle(1, 502));
    var e6 := e4 + [Settle(2, 401)] + [Settle(1, 502)];
    assert e6 == [Arrive(0, "a", 0), Arrive(1, "a", 0), Settle(0, 200), Arrive(2, "a", 0), Settle(2, 401), Settle(1, 502)];
    assert Run(cfg, e6) == Sys(map[], map[0 := Settled, 1 := Settled, 2 := Settled],
                               [Verdict("a", 200)] + [Verdict("a", 401)] + [Verdict("a", 502)]);
    WrongStep([], Verdict("a", 200), "a");
    assert [] + [Verdict("a", 200)] == [Verdict("a", 200)];
    WrongStep([Verdict("a", 200)], Verdict("a", 401), "a");
    WrongStep([Verdict("a", 200)] + [Verdict("a", 401)], Verdict("a", 502), "a");
  }
}
