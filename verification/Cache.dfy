/** One user's cached report, between fills that delete it and requests that rebuild it. */
module Cache {
  import opened Wrappers
  import opened Market

  type FillId = nat
  type RequestId = nat

  /** Five minutes. */
  const CACHE_TTL: int := 300_000_000_000

  /** A fill that has committed: its place in the trade log, and when it committed and deleted the entry. Every
      "at" is the number of the event, in the order events happened. */
  datatype Fill = Fill(index: nat, committedAt: nat, deletedAt: Option<nat>)

  /** A report is what its build read: the first seen trades of the log, and then the account as the first live fills
      had left it. Until it has read the account, that is as of the log. */
  datatype Build = Build(seen: nat, readAt: nat, live: nat, liveAt: nat)

  datatype Entry = Entry(build: Build, setAt: nat, setTime: Time)

  /** gotAt is when the request asked the cache. */
  datatype Request =
    | Missed(gotAt: nat)
    | HasTrades(gotAt: nat, build: Build)
    | HasPortfolio(gotAt: nat, build: Build)
    | Failed
    | Served(gotAt: nat, build: Build, from: Option<Entry>, servedTime: Time)

  datatype Sys = Sys(step: nat, now: Time, committed: nat, fills: map<FillId, Fill>, cache: Option<Entry>,
                     requests: map<RequestId, Request>)

  /** Cache calls carry whether they succeeded: a failed read computes, a failed write is ignored, and a failed
      delete leaves the order filled and the entry in place. */
  datatype Event =
    | Commit(fill: FillId)
    | Delete(fill: FillId, ok: bool)
    | Get(request: RequestId, ok: bool)
    | ReadTrades(request: RequestId)
    | ReadPortfolio(request: RequestId)
    | Fail(request: RequestId)
    | Store(request: RequestId, ok: bool)
    | Evict
    | Elapse(nanos: nat)

  predicate Unexpired(e: Entry, now: Time) {
    now < e.setTime + CACHE_TTL
  }

  /** A build that found no trades answers without reading the account. */
  predicate ReadyToStore(r: Request) {
    r.HasPortfolio? || (r.HasTrades? && r.build.seen == 0)
  }

  predicate Enabled(s: Sys, e: Event) {
    match e
    case Commit(f) => f !in s.fills
    case Delete(f, _) => f in s.fills && s.fills[f].deletedAt.None?
    case Get(q, _) => q !in s.requests
    case ReadTrades(q) => q in s.requests && s.requests[q].Missed?
    case ReadPortfolio(q) => q in s.requests && s.requests[q].HasTrades? && s.requests[q].build.seen > 0
    case Fail(q) => q in s.requests && !s.requests[q].Served?
    case Store(q, _) => q in s.requests && ReadyToStore(s.requests[q])
    case Evict => true
    case Elapse(_) => true
  }

  function Effect(s: Sys, e: Event): Sys
    requires Enabled(s, e)
  {
    match e
    case Commit(f) => s.(committed := s.committed + 1, fills := s.fills[f := Fill(s.committed, s.step, None)])
    case Delete(f, ok) =>
      if ok then s.(cache := None, fills := s.fills[f := s.fills[f].(deletedAt := Some(s.step))]) else s
    case Get(q, ok) =>
      if ok && s.cache.Some? && Unexpired(s.cache.value, s.now)
      then s.(requests := s.requests[q := Served(s.step, s.cache.value.build, s.cache, s.now)])
      else s.(requests := s.requests[q := Missed(s.step)])
    case ReadTrades(q) =>
      s.(requests := s.requests[q := HasTrades(s.requests[q].gotAt, Build(s.committed, s.step, s.committed, s.step))])
    case ReadPortfolio(q) =>
      var build := s.requests[q].build.(live := s.committed, liveAt := s.step);
      s.(requests := s.requests[q := HasPortfolio(s.requests[q].gotAt, build)])
    case Fail(q) => s.(requests := s.requests[q := Failed])
    case Store(q, ok) =>
      var r := s.requests[q];
      s.(cache := if ok then Some(Entry(r.build, s.step, s.now)) else s.cache,
         requests := s.requests[q := Served(r.gotAt, r.build, None, s.now)])
    case Evict => s.(cache := None)
    case Elapse(nanos) => s.(now := s.now + nanos)
  }

  function Step(s: Sys, e: Event): Sys {
    (if Enabled(s, e) then Effect(s, e) else s).(step := s.step + 1)
  }

  function Run(events: seq<Event>): Sys {
    if events == [] then Sys(0, 0, 0, map[], None, map[])
    else Step(Run(events[..|events| - 1]), events[|events| - 1])
  }

  // ---- the invariant

  /** Exactly the fills that committed before a moment are the first so many. */
  ghost predicate Counted(s: Sys, many: nat, at: nat) {
    && at < s.step && many <= s.committed
    && forall f :: f in s.fills ==>
         s.fills[f].committedAt != at && (s.fills[f].index < many <==> s.fills[f].committedAt < at)
  }

  /** A build holds exactly the fills that committed before it read the log, and its account exactly those that
      committed before it read the account, which was no earlier. */
  ghost predicate BuildOk(s: Sys, b: Build) {
    && Counted(s, b.seen, b.readAt) && Counted(s, b.live, b.liveAt) && b.readAt <= b.liveAt && b.seen <= b.live
  }

  /** Every place below the number committed is some fill's. */
  ghost predicate PlacesTaken(s: Sys) {
    forall i: nat :: i < s.committed ==> TakenBy(s, i)
  }

  ghost predicate TakenBy(s: Sys, i: nat) {
    exists f :: f in s.fills && s.fills[f].index == i
  }

  ghost predicate FillsOk(s: Sys) {
    forall f :: f in s.fills ==>
      && s.fills[f].index < s.committed && s.fills[f].committedAt < s.step
      && (s.fills[f].deletedAt.Some? ==> s.fills[f].committedAt < s.fills[f].deletedAt.value < s.step)
  }

  /** Whatever is in the cache was set after every delete so far. */
  ghost predicate EntryOk(s: Sys, e: Entry) {
    && BuildOk(s, e.build) && e.build.liveAt < e.setAt < s.step
    && forall f :: f in s.fills && s.fills[f].deletedAt.Some? ==> s.fills[f].deletedAt.value < e.setAt
  }

  /** What a served request can have been served from. */
  ghost predicate ServedOk(s: Sys, gotAt: nat, build: Build, from: Option<Entry>, servedTime: Time) {
    match from
    case None => gotAt < build.readAt
    case Some(e) =>
      && e.build == build && build.liveAt < e.setAt < gotAt && Unexpired(e, servedTime)
      && forall f :: f in s.fills && s.fills[f].deletedAt.Some? && s.fills[f].deletedAt.value < gotAt ==>
           s.fills[f].deletedAt.value < e.setAt
  }

  ghost predicate RequestOk(s: Sys, r: Request) {
    match r
    case Missed(gotAt) => gotAt < s.step
    case HasTrades(gotAt, build) => gotAt < build.readAt && BuildOk(s, build)
    case HasPortfolio(gotAt, build) => gotAt < build.readAt && BuildOk(s, build)
    case Failed => true
    case Served(gotAt, build, from, servedTime) =>
      gotAt < s.step && BuildOk(s, build) && ServedOk(s, gotAt, build, from, servedTime)
  }

  ghost predicate Inv(s: Sys) {
    && FillsOk(s) && PlacesTaken(s)
    && (s.cache.Some? ==> EntryOk(s, s.cache.value))
    && forall q :: q in s.requests ==> RequestOk(s, s.requests[q])
  }

  /** Fills that commit or delete later do not change what an earlier build holds. */
  ghost predicate Extends(s: Sys, s': Sys) {
    && s.step < s'.step && s.committed <= s'.committed
    && (forall f :: f in s.fills ==> f in s'.fills && s'.fills[f].index == s.fills[f].index
                                     && s'.fills[f].committedAt == s.fills[f].committedAt
                                     && (s.fills[f].deletedAt.Some? ==> s'.fills[f].deletedAt == s.fills[f].deletedAt))
    && (forall f :: f in s'.fills && f !in s.fills ==> s'.fills[f].index >= s.committed && s'.fills[f].committedAt >= s.step)
    && forall f :: f in s'.fills && s'.fills[f].deletedAt.Some? ==>
         s'.fills[f].deletedAt.value >= s.step || (f in s.fills && s.fills[f].deletedAt == s'.fills[f].deletedAt)
  }

  lemma CountStays(s: Sys, s': Sys, many: nat, at: nat)
    requires Extends(s, s') && Counted(s, many, at)
    ensures Counted(s', many, at)
  {}

  lemma BuildStays(s: Sys, s': Sys, b: Build)
    requires Extends(s, s') && BuildOk(s, b)
    ensures BuildOk(s', b)
  {
    hide Extends, Counted;
    CountStays(s, s', b.seen, b.readAt);
    CountStays(s, s', b.live, b.liveAt);
  }

  /** What is read now is everything committed so far. */
  lemma CountsNow(s: Sys, e: Event)
    requires FillsOk(s) && (e.ReadTrades? || e.ReadPortfolio?)
    ensures Counted(Step(s, e), s.committed, s.step)
  {}

  lemma StepKeepsPlaces(s: Sys, e: Event)
    requires PlacesTaken(s)
    ensures PlacesTaken(Step(s, e))
  {
    var s' := Step(s, e);
    forall i: nat | i < s'.committed ensures TakenBy(s', i) {
      if i < s.committed {
        assert TakenBy(s, i);
        var f :| f in s.fills && s.fills[f].index == i;
        assert f in s'.fills && s'.fills[f].index == i;
      } else {
        assert s'.fills[e.fill].index == i;
      }
    }
  }

  lemma RequestStays(s: Sys, s': Sys, r: Request)
    requires Extends(s, s') && RequestOk(s, r)
    ensures RequestOk(s', r)
  {
    if r.HasTrades? || r.HasPortfolio? || r.Served? {
      BuildStays(s, s', r.build);
    }
  }

  lemma StepExtends(s: Sys, e: Event)
    requires FillsOk(s)
    ensures Extends(s, Step(s, e))
  {}

  lemma StepKeepsFills(s: Sys, e: Event)
    requires FillsOk(s)
    ensures FillsOk(Step(s, e))
  {}

  lemma StepKeepsEntry(s: Sys, e: Event)
    requires Inv(s)
    ensures Step(s, e).cache.Some? ==> EntryOk(Step(s, e), Step(s, e).cache.value)
  {
    var s' := Step(s, e);
    StepExtends(s, e);
    StepKeepsFills(s, e);
    hide Extends;
    if s'.cache.Some? {
      if s'.cache == s.cache {
        BuildStays(s, s', s.cache.value.build);
      } else {
        assert RequestOk(s, s.requests[e.request]);
        BuildStays(s, s', s.requests[e.request].build);
      }
    }
  }

  lemma StepKeepsRequests(s: Sys, e: Event, q: RequestId)
    requires Inv(s) && q in Step(s, e).requests
    ensures RequestOk(Step(s, e), Step(s, e).requests[q])
  {
    var s' := Step(s, e);
    StepExtends(s, e);
    if q in s.requests && s'.requests[q] == s.requests[q] {
      RequestStays(s, s', s.requests[q]);
    } else if e.Get? && s'.requests[q].Served? {
      BuildStays(s, s', s.cache.value.build);
    } else if e.ReadTrades? || e.ReadPortfolio? {
      CountsNow(s, e);
      if e.ReadPortfolio? {
        BuildStays(s, s', s.requests[q].build);
      }
    } else if e.Store? {
      BuildStays(s, s', s.requests[q].build);
    }
  }

  lemma {:induction false} RunKeepsInv(events: seq<Event>)
    ensures Inv(Run(events))
  {
    if events != [] {
      hide BuildOk, EntryOk, RequestOk, Step, PlacesTaken;
      var s, e := Run(events[..|events| - 1]), events[|events| - 1];
      RunKeepsInv(events[..|events| - 1]);
      StepKeepsFills(s, e);
      StepKeepsPlaces(s, e);
      StepKeepsEntry(s, e);
      forall q | q in Step(s, e).requests ensures RequestOk(Step(s, e), Step(s, e).requests[q]) {
        StepKeepsRequests(s, e, q);
      }
    }
  }

  // ---- freshness

  /** The one way to be served without a fill that was already deleted for: an entry whose build had read the log
      before the fill committed and stored itself after the fill's delete, still within its lifetime. */
  ghost predicate BuiltAcross(e: Entry, f: Fill, servedTime: Time) {
    e.build.readAt < f.committedAt && f.deletedAt.Some? && f.deletedAt.value < e.setAt && Unexpired(e, servedTime)
  }

  /** Freshness, exactly. In every interleaving, a report asked for after a fill's delete lacks the fill if and only
      if it comes from an entry that was being built across it; and such an entry is served for less than CacheTTL. */
  lemma ReportsAreFresh(events: seq<Event>, q: RequestId, f: FillId)
    requires var s := Run(events);
             && q in s.requests && s.requests[q].Served? && f in s.fills && s.fills[f].deletedAt.Some?
             && s.fills[f].deletedAt.value < s.requests[q].gotAt
    ensures var s := Run(events);
            var r, fill := s.requests[q], s.fills[f];
            (fill.index >= r.build.seen) ==
            (r.from.Some? && r.from.value.build == r.build && BuiltAcross(r.from.value, fill, r.servedTime))
  {
    RunKeepsInv(events);
    var s := Run(events);
    assert RequestOk(s, s.requests[q]);
  }

  /** A request that computes its own report always includes every fill deleted for before it asked. */
  lemma OwnBuildsAreFresh(events: seq<Event>, q: RequestId, f: FillId)
    requires var s := Run(events);
             && q in s.requests && s.requests[q].Served? && s.requests[q].from.None? && f in s.fills
             && s.fills[f].deletedAt.Some? && s.fills[f].deletedAt.value < s.requests[q].gotAt
    ensures Run(events).fills[f].index < Run(events).requests[q].build.seen
  {
    RunKeepsInv(events);
    var s := Run(events);
    assert RequestOk(s, s.requests[q]);
  }

  /** And whether or not a fill's delete succeeded, or ever ran, a report asked for after the fill committed lacks it if
      and only if its build read the log before that, and then it is an entry from the cache, not yet CacheTTL old. */
  lemma StaleForLessThanTTL(events: seq<Event>, q: RequestId, f: FillId)
    requires var s := Run(events);
             && q in s.requests && s.requests[q].Served? && f in s.fills
             && s.fills[f].committedAt < s.requests[q].gotAt
    ensures var s := Run(events);
            var r, fill := s.requests[q], s.fills[f];
            && (fill.index >= r.build.seen <==> r.build.readAt < fill.committedAt)
            && (fill.index >= r.build.seen ==>
                  && r.from.Some? && r.from.value.build == r.build
                  && r.servedTime < r.from.value.setTime + CACHE_TTL)
  {
    RunKeepsInv(events);
    var s := Run(events);
    assert RequestOk(s, s.requests[q]);
  }

  // ---- a report torn between its two reads

  /** The account a report was checked against had fills its log did not. */
  predicate Torn(b: Build) {
    b.seen < b.live
  }

  /** A served report is torn exactly when a fill committed between its build's two reads. It is a report the guard may
      withhold from an honest account, and it is cached like any other. A request that asks after such a fill's delete
      can still be served it, but only from an entry stored after that delete, and for less than CacheTTL. */
  lemma TornIff(events: seq<Event>, q: RequestId)
    requires q in Run(events).requests && Run(events).requests[q].Served?
    ensures var s := Run(events);
            var r := s.requests[q];
            && (Torn(r.build) <==>
                  exists f :: f in s.fills && r.build.readAt < s.fills[f].committedAt < r.build.liveAt)
            && (forall f :: f in s.fills && r.build.readAt < s.fills[f].committedAt < r.build.liveAt
                            && s.fills[f].deletedAt.Some? && s.fills[f].deletedAt.value < r.gotAt ==>
                  r.from.Some? && r.from.value.build == r.build && BuiltAcross(r.from.value, s.fills[f], r.servedTime))
  {
    RunKeepsInv(events);
    var s := Run(events);
    var r := s.requests[q];
    assert RequestOk(s, r);
    if Torn(r.build) {
      assert TakenBy(s, r.build.seen);
      var f :| f in s.fills && s.fills[f].index == r.build.seen;
      assert r.build.readAt < s.fills[f].committedAt < r.build.liveAt;
    }
  }

  /** It happens: a fill between the two reads, deleted for before the report is stored, and a request after it. */
  lemma TornReportIsServed()
    ensures var s := Run([Commit(9), Get(0, true), ReadTrades(0), Commit(0), ReadPortfolio(0), Delete(0, true),
                          Store(0, true), Get(1, true)]);
            && 1 in s.requests && s.requests[1].Served? && Torn(s.requests[1].build)
            && 0 in s.fills && s.fills[0].deletedAt == Some(5) && s.requests[1].gotAt == 7
  {
    hide Run;
    var e3 := OneFillThenRead();
    var e5 := e3 + [Commit(0)] + [ReadPortfolio(0)];
    var e7 := e5 + [Delete(0, true)] + [Store(0, true)];
    var first := Fill(0, 0, None);
    RunStep(e3, Commit(0));
    RunStep(e3 + [Commit(0)], ReadPortfolio(0));
    assert Run(e5)
        == Sys(5, 0, 2, map[9 := first, 0 := Fill(1, 3, None)], None, map[0 := HasPortfolio(1, Build(1, 2, 2, 4))]);
    RunStep(e5, Delete(0, true));
    RunStep(e5 + [Delete(0, true)], Store(0, true));
    assert Run(e7) == Sys(7, 0, 2, map[9 := first, 0 := Fill(1, 3, Some(5))], Some(Entry(Build(1, 2, 2, 4), 6, 0)),
                          map[0 := Served(1, Build(1, 2, 2, 4), None, 0)]);
    RunStep(e7, Get(1, true));
    assert e7 + [Get(1, true)] == [Commit(9), Get(0, true), ReadTrades(0), Commit(0), ReadPortfolio(0),
                                   Delete(0, true), Store(0, true), Get(1, true)];
  }

  /** An account with one fill, and a build that has read its log. */
  lemma OneFillThenRead() returns (events: seq<Event>)
    ensures events == [Commit(9), Get(0, true), ReadTrades(0)]
    ensures Run(events) == Sys(3, 0, 1, map[9 := Fill(0, 0, None)], None, map[0 := HasTrades(1, Build(1, 2, 1, 2))])
  {
    hide Run;
    NothingRun();
    RunStep([], Commit(9));
    RunStep([] + [Commit(9)], Get(0, true));
    events := [] + [Commit(9)] + [Get(0, true)] + [ReadTrades(0)];
    RunStep([] + [Commit(9)] + [Get(0, true)], ReadTrades(0));
  }

  lemma RunStep(events: seq<Event>, e: Event)
    ensures Run(events + [e]) == Step(Run(events), e)
  {
    assert (events + [e])[..|events|] == events;
  }

  /** The exception is real: a report that read the log before a fill, and is stored after its delete, is served to
      a request that asked after it. */
  lemma EntryBuiltAcrossIsServed()
    ensures var s := Run([Commit(9), Get(0, true), ReadTrades(0), ReadPortfolio(0), Commit(0), Delete(0, true),
                          Store(0, true), Get(1, true)]);
            && 1 in s.requests && s.requests[1].Served? && 0 in s.fills && s.fills[0].deletedAt == Some(5)
            && s.requests[1].gotAt == 7 && s.fills[0].index >= s.requests[1].build.seen
  {
    hide Run;
    var e3 := OneFillThenRead();
    var e5 := e3 + [ReadPortfolio(0)] + [Commit(0)];
    var e7 := e5 + [Delete(0, true)] + [Store(0, true)];
    var first := Fill(0, 0, None);
    RunStep(e3, ReadPortfolio(0));
    RunStep(e3 + [ReadPortfolio(0)], Commit(0));
    assert Run(e5)
        == Sys(5, 0, 2, map[9 := first, 0 := Fill(1, 4, None)], None, map[0 := HasPortfolio(1, Build(1, 2, 1, 3))]);
    RunStep(e5, Delete(0, true));
    RunStep(e5 + [Delete(0, true)], Store(0, true));
    assert Run(e7) == Sys(7, 0, 2, map[9 := first, 0 := Fill(1, 4, Some(5))], Some(Entry(Build(1, 2, 1, 3), 6, 0)),
                          map[0 := Served(1, Build(1, 2, 1, 3), None, 0)]);
    RunStep(e7, Get(1, true));
    assert e7 + [Get(1, true)] == [Commit(9), Get(0, true), ReadTrades(0), ReadPortfolio(0), Commit(0),
                                   Delete(0, true), Store(0, true), Get(1, true)];
  }

  lemma NothingRun()
    ensures Run([]) == Sys(0, 0, 0, map[], None, map[])
  {}
}
