/** Concurrent orders: every transaction advances one statement at a time, interleaved with all the
    others, and may be rolled back between any two statements. */
module Transactions {
  import opened Numeric
  import opened Wrappers
  import opened Market
  import opened Ledger

  type TxId = nat

  datatype Pc = Started | HasLock | HasPosition | OrderIn | TradeIn | PositionOut | BalanceOut | Refused | Committed | RolledBack

  /** What a transaction has written and not yet committed; nobody else can see it. */
  datatype Draft = Draft(order: Option<OrderRow>, trade: Option<TradeRow>, position: Option<Position>, balance: Option<real>)

  /** balance and held are the transaction's local variables: what it read, and when. */
  datatype Txn = Txn(account: AccountId, p: OrderParams, pc: Pc, balance: real, held: Position, draft: Draft)

  datatype Commit =
    | Executed(id: TxId, account: AccountId, p: OrderParams)
    | Recorded(id: TxId, account: AccountId, p: OrderParams, reason: string)

  /** db is the committed state, holder the row locks, acquired each row's lock grants in order. */
  datatype Sys = Sys(db: map<AccountId, Account>, txns: map<TxId, Txn>, holder: map<AccountId, TxId>,
                     acquired: map<AccountId, seq<TxId>>, commits: seq<Commit>)

  datatype Event =
    | Begin(id: TxId, account: AccountId, p: OrderParams)
    | Lock(id: TxId)
    | Advance(id: TxId)
    | CommitTx(id: TxId)
    | Rollback(id: TxId)
    | Record(id: TxId, account: AccountId, p: OrderParams, reason: string)

  const NOTHING := Draft(None, None, None, None)

  predicate Active(pc: Pc) { !pc.Started? && !pc.Committed? && !pc.RolledBack? }

  function Started0(account: AccountId, p: OrderParams): Txn {
    Txn(account, p, Started, 0.0, Position(0, 0.0), NOTHING)
  }

  // ---- one statement of one transaction, reading committed rows only

  function NextBuy(column: Column, t: Txn, rows: Account): Txn {
    match t.pc
    case HasLock =>
      if Notional(t.p) > t.balance
      then t.(pc := Refused, draft := t.draft.(order := Some(RejectedRow(t.p, "insufficient_balance"))))
      else t.(pc := OrderIn, draft := t.draft.(order := Some(FilledRow(column, t.p))))
    case OrderIn => t.(pc := TradeIn, draft := t.draft.(trade := Some(TradeOf(column, t.p, None))))
    case TradeIn => t.(pc := HasPosition, held := Held(rows, t.p.symbol))
    case HasPosition =>
      var avg := WeightedAvgCost(Shares(t.held.quantity), t.held.avgCost, Shares(t.p.quantity), t.p.price);
      t.(pc := PositionOut,
         draft := t.draft.(position := Some(Position(t.held.quantity + t.p.quantity, Stored(column, avg)))))
    case PositionOut =>
      t.(pc := BalanceOut, draft := t.draft.(balance := Some(Stored(column, t.balance - Notional(t.p)))))
    case _ => t
  }

  function NextSell(column: Column, t: Txn, rows: Account): Txn {
    match t.pc
    case HasLock => t.(pc := HasPosition, held := Held(rows, t.p.symbol))
    case HasPosition =>
      if t.p.quantity > t.held.quantity
      then t.(pc := Refused, draft := t.draft.(order := Some(RejectedRow(t.p, "insufficient_position"))))
      else t.(pc := OrderIn, draft := t.draft.(order := Some(FilledRow(column, t.p))))
    case OrderIn =>
      var realized := RealizedPL(t.held.avgCost, t.p.price, Shares(t.p.quantity));
      t.(pc := TradeIn, draft := t.draft.(trade := Some(TradeOf(column, t.p, Some(realized)))))
    case TradeIn =>
      t.(pc := PositionOut,
         draft := t.draft.(position := Some(Position(t.held.quantity - t.p.quantity, Stored(column, t.held.avgCost)))))
    case PositionOut =>
      t.(pc := BalanceOut, draft := t.draft.(balance := Some(Stored(column, t.balance + Notional(t.p)))))
    case _ => t
  }

  function NextStatement(column: Column, t: Txn, rows: Account): Txn {
    match t.p.side
    case Buy => NextBuy(column, t, rows)
    case Sell => NextSell(column, t, rows)
    case OtherSide => t
  }

  function Apply(d: Draft, symbol: Symbol, rows: Account): Account {
    Account(if d.balance.Some? then d.balance.value else rows.balance,
            if d.position.Some? then rows.positions[symbol := d.position.value] else rows.positions,
            if d.order.Some? then rows.orders + [d.order.value] else rows.orders,
            if d.trade.Some? then rows.trades + [d.trade.value] else rows.trades)
  }

  // ---- the interleaved system

  predicate Enabled(s: Sys, e: Event) {
    match e
    case Begin(id, account, p) => id !in s.txns && p.orderId == id
    case Lock(id) =>
      && id in s.txns && s.txns[id].pc == Started
      && s.txns[id].account in s.db && s.txns[id].account in s.acquired
      && s.txns[id].account !in s.holder
    case Advance(id) => id in s.txns && Active(s.txns[id].pc) && s.txns[id].account in s.db
    case CommitTx(id) =>
      id in s.txns && (s.txns[id].pc == BalanceOut || s.txns[id].pc == Refused) && s.txns[id].account in s.db
    case Rollback(id) => id in s.txns && (s.txns[id].pc == Started || Active(s.txns[id].pc))
    case Record(id, account, p, reason) => id !in s.txns && p.orderId == id && account in s.db
  }

  function Release(holder: map<AccountId, TxId>, id: TxId): map<AccountId, TxId> {
    map a | a in holder && holder[a] != id :: holder[a]
  }

  /** An event that is not enabled does nothing, so every sequence of events is a run. */
  function Step(column: Column, s: Sys, e: Event): Sys {
    if !Enabled(s, e) then s
    else
      match e
      case Begin(id, account, p) => s.(txns := s.txns[id := Started0(account, p)])
      case Lock(id) =>
        var t := s.txns[id];
        s.(txns := s.txns[id := t.(pc := HasLock, balance := s.db[t.account].balance)],
           holder := s.holder[t.account := id],
           acquired := s.acquired[t.account := s.acquired[t.account] + [id]])
      case Advance(id) =>
        var t := s.txns[id];
        s.(txns := s.txns[id := NextStatement(column, t, s.db[t.account])])
      case CommitTx(id) =>
        var t := s.txns[id];
        s.(db := s.db[t.account := Apply(t.draft, t.p.symbol, s.db[t.account])],
           txns := s.txns[id := t.(pc := Committed)],
           holder := Release(s.holder, id),
           commits := s.commits + [Executed(id, t.account, t.p)])
      case Rollback(id) =>
        s.(txns := s.txns[id := s.txns[id].(pc := RolledBack)], holder := Release(s.holder, id))
      case Record(id, account, p, reason) =>
        s.(db := s.db[account := Reject(s.db[account], p, reason)],
           txns := s.txns[id := Started0(account, p).(pc := Committed)],
           commits := s.commits + [Recorded(id, account, p, reason)])
  }

  function Init(db: map<AccountId, Account>): Sys {
    Sys(db, map[], map[], map a | a in db :: [], [])
  }

  function Run(column: Column, db: map<AccountId, Account>, events: seq<Event>): Sys {
    if events == [] then Init(db)
    else Step(column, Run(column, db, events[..|events| - 1]), events[|events| - 1])
  }

  // ---- the serial reference: whole orders, one after another, nobody else running

  function ReplayOne(column: Column, db: map<AccountId, Account>, c: Commit): map<AccountId, Account> {
    if c.account !in db then db
    else match c
      case Executed(_, account, p) => db[account := Execute(column, db[account], p)]
      case Recorded(_, account, p, reason) => db[account := Reject(db[account], p, reason)]
  }

  function Replay(column: Column, db: map<AccountId, Account>, commits: seq<Commit>): map<AccountId, Account> {
    if commits == [] then db
    else ReplayOne(column, Replay(column, db, commits[..|commits| - 1]), commits[|commits| - 1])
  }

  function CommitOrder(commits: seq<Commit>, account: AccountId): seq<TxId> {
    if commits == [] then []
    else
      var last := commits[|commits| - 1];
      CommitOrder(commits[..|commits| - 1], account)
      + if last.Executed? && last.account == account then [last.id] else []
  }

  /** The lock grants of one row whose transactions went on to commit. */
  function LockOrder(acquired: seq<TxId>, txns: map<TxId, Txn>): seq<TxId> {
    if acquired == [] then []
    else
      var last := acquired[|acquired| - 1];
      LockOrder(acquired[..|acquired| - 1], txns)
      + if last in txns && txns[last].pc == Committed then [last] else []
  }

  // ---- the invariant

  /** How far a lock holder has come, and that everything it read is still what is committed. */
  predicate OnTrack(column: Column, t: Txn, rows: Account) {
    var p := t.p;
    var order := Some(FilledRow(column, p));
    var buyTrade := Some(TradeOf(column, p, None));
    var held := Held(rows, p.symbol);
    var sellTrade := Some(TradeOf(column, p, Some(RealizedPL(held.avgCost, p.price, Shares(p.quantity)))));
    && t.balance == rows.balance
    && (t.pc.HasLock? ==> t.draft == NOTHING)
    && (p.side.OtherSide? ==> t.pc.HasLock?)
    && (p.side.Buy? && t.pc.Refused? ==>
          !Affordable(rows, p) && t.draft == Draft(Some(RejectedRow(p, "insufficient_balance")), None, None, None))
    && (p.side.Buy? && !t.pc.HasLock? && !t.pc.Refused? ==>
          && Affordable(rows, p)
          && t.draft.order == order
          && t.draft.trade == (if t.pc.OrderIn? then None else buyTrade)
          && (t.pc.HasPosition? || t.pc.PositionOut? ==> t.held == held)
          && t.draft.position == (if t.pc.PositionOut? || t.pc.BalanceOut?
                                  then Some(AfterBuy(column, rows, p).positions[p.symbol]) else None)
          && t.draft.balance == (if t.pc.BalanceOut? then Some(AfterBuy(column, rows, p).balance) else None))
    && (p.side.Sell? && t.pc.Refused? ==>
          !Covered(rows, p) && t.draft == Draft(Some(RejectedRow(p, "insufficient_position")), None, None, None))
    && (p.side.Sell? && !t.pc.HasLock? ==> t.held == held)
    && (p.side.Sell? && t.pc.HasPosition? ==> t.draft == NOTHING)
    && (p.side.Sell? && !t.pc.HasLock? && !t.pc.HasPosition? && !t.pc.Refused? ==>
          && Covered(rows, p)
          && t.draft.order == order
          && t.draft.trade == (if t.pc.OrderIn? then None else sellTrade)
          && t.draft.position == (if t.pc.PositionOut? || t.pc.BalanceOut?
                                  then Some(AfterSell(column, rows, p).positions[p.symbol]) else None)
          && t.draft.balance == (if t.pc.BalanceOut? then Some(AfterSell(column, rows, p).balance) else None))
  }

  lemma NextStatementStaysOnTrack(column: Column, t: Txn, rows: Account)
    requires Active(t.pc) && OnTrack(column, t, rows)
    ensures var u := NextStatement(column, t, rows);
            Active(u.pc) && u.account == t.account && u.p == t.p && OnTrack(column, u, rows)
  {}

  lemma NextStatementStaysActive(column: Column, t: Txn, rows: Account)
    requires Active(t.pc)
    ensures var u := NextStatement(column, t, rows); Active(u.pc) && u.account == t.account && u.p == t.p
  {}

  /** Orders recorded without the lock land between a holder's statements and disturb nothing it relies on. */
  lemma OnTrackIgnoresOrders(column: Column, t: Txn, rows: Account, orders: seq<OrderRow>)
    requires OnTrack(column, t, rows)
    ensures OnTrack(column, t, rows.(orders := orders))
  {
    assert Held(rows.(orders := orders), t.p.symbol) == Held(rows, t.p.symbol);
  }

  /** The statements, taken together, are the order. */
  lemma StatementsAreTheOrder(column: Column, t: Txn, rows: Account)
    requires OnTrack(column, t, rows) && (t.pc == BalanceOut || t.pc == Refused)
    ensures Apply(t.draft, t.p.symbol, rows) == Execute(column, rows, t.p) && t.p.side != OtherSide
  {}

  /** Exactly the running transactions hold a lock, each its own account's. */
  ghost predicate Locks(s: Sys) {
    && s.acquired.Keys == s.db.Keys
    && (forall id :: id in s.txns && Active(s.txns[id].pc) ==>
          s.txns[id].account in s.holder && s.holder[s.txns[id].account] == id)
    && (forall a :: a in s.holder ==>
          && a in s.db && s.holder[a] in s.txns
          && Active(s.txns[s.holder[a]].pc) && s.txns[s.holder[a]].account == a
          && |s.acquired[a]| > 0 && s.acquired[a][|s.acquired[a]| - 1] == s.holder[a])
  }

  ghost predicate HoldersOnTrack(column: Column, s: Sys) {
    && (forall id :: id in s.txns && s.txns[id].pc == Started ==> s.txns[id].draft == NOTHING)
    && forall a :: a in s.holder && s.holder[a] in s.txns && a in s.db ==> OnTrack(column, s.txns[s.holder[a]], s.db[a])
  }

  /** Only a row's newest grant can still be running. */
  ghost predicate Grants(s: Sys) {
    forall a, i :: a in s.acquired && 0 <= i < |s.acquired[a]| ==>
      && s.acquired[a][i] in s.txns
      && s.txns[s.acquired[a][i]].account == a
      && s.txns[s.acquired[a][i]].pc != Started
      && (i < |s.acquired[a]| - 1 ==> !Active(s.txns[s.acquired[a][i]].pc))
  }

  ghost predicate InLockOrder(s: Sys) {
    forall a :: a in s.acquired ==> LockOrder(s.acquired[a], s.txns) == CommitOrder(s.commits, a)
  }

  ghost predicate Inv(column: Column, db: map<AccountId, Account>, s: Sys) {
    && s.db == Replay(column, db, s.commits) && s.db.Keys == db.Keys
    && Locks(s) && Grants(s) && InLockOrder(s) && HoldersOnTrack(column, s)
  }

  lemma {:induction false} LockOrderFrame(acquired: seq<TxId>, txns: map<TxId, Txn>, txns': map<TxId, Txn>)
    requires forall i :: 0 <= i < |acquired| ==>
      (acquired[i] in txns && txns[acquired[i]].pc == Committed <==> acquired[i] in txns' && txns'[acquired[i]].pc == Committed)
    ensures LockOrder(acquired, txns) == LockOrder(acquired, txns')
  {
    if acquired != [] {
      LockOrderFrame(acquired[..|acquired| - 1], txns, txns');
    }
  }

  /** A transaction moves without taking or giving up a lock. */
  lemma MoveKeepsLocks(s: Sys, s': Sys, id: TxId, u: Txn)
    requires Locks(s) && s'.txns == s.txns[id := u] && s'.holder == s.holder && s'.acquired == s.acquired
    requires s'.db.Keys == s.db.Keys
    requires if id in s.txns && Active(s.txns[id].pc)
             then Active(u.pc) && u.account == s.txns[id].account else !Active(u.pc)
    ensures Locks(s')
  {}

  lemma GrantKeepsLocks(s: Sys, s': Sys, id: TxId, u: Txn)
    requires Locks(s) && Active(u.pc) && u.account in s.db && u.account !in s.holder
    requires s'.txns == s.txns[id := u] && s'.holder == s.holder[u.account := id] && s'.db == s.db
    requires s'.acquired == s.acquired[u.account := s.acquired[u.account] + [id]]
    requires id in s.txns && !Active(s.txns[id].pc)
    ensures Locks(s')
  {}

  lemma ReleaseKeepsLocks(s: Sys, s': Sys, id: TxId, u: Txn)
    requires Locks(s) && id in s.txns && !Active(u.pc) && s'.txns == s.txns[id := u]
    requires s'.holder == Release(s.holder, id) && s'.acquired == s.acquired && s'.db.Keys == s.db.Keys
    ensures Locks(s')
  {}

  lemma StepKeepsLocks(column: Column, s: Sys, e: Event)
    requires Locks(s) && Enabled(s, e)
    ensures Locks(Step(column, s, e))
  {
    hide Apply, Reject, Release;
    var s' := Step(column, s, e);
    match e
    case Begin(id, _, _) => MoveKeepsLocks(s, s', id, s'.txns[id]);
    case Lock(id) => GrantKeepsLocks(s, s', id, s'.txns[id]);
    case Advance(id) => MoveKeepsLocks(s, s', id, s'.txns[id]);
    case CommitTx(id) => ReleaseKeepsLocks(s, s', id, s'.txns[id]);
    case Rollback(id) => ReleaseKeepsLocks(s, s', id, s'.txns[id]);
    case Record(id, _, _, _) => MoveKeepsLocks(s, s', id, s'.txns[id]);
  }

  lemma StepKeepsGrants(column: Column, s: Sys, e: Event)
    requires Locks(s) && Grants(s) && Enabled(s, e)
    ensures Grants(Step(column, s, e))
  {
    hide NextStatement, Apply, Reject, Release;
    if e.Advance? {
      NextStatementStaysActive(column, s.txns[e.id], s.db[s.txns[e.id].account]);
    }
  }

  lemma SameCommittedGrants(s: Sys, id: TxId, u: Txn, a: AccountId)
    requires Grants(s) && a in s.acquired
    requires id in s.txns && s.txns[id].account == a ==> !u.pc.Committed? && !s.txns[id].pc.Committed?
    ensures LockOrder(s.acquired[a], s.txns[id := u]) == LockOrder(s.acquired[a], s.txns)
  {
    LockOrderFrame(s.acquired[a], s.txns, s.txns[id := u]);
  }

  lemma NewestGrantCommits(s: Sys, id: TxId, u: Txn, a: AccountId)
    requires Locks(s) && Grants(s) && a in s.holder && s.holder[a] == id && u.pc.Committed?
    ensures LockOrder(s.acquired[a], s.txns[id := u]) == LockOrder(s.acquired[a], s.txns) + [id]
  {
    var grants := s.acquired[a];
    LockOrderFrame(grants[..|grants| - 1], s.txns, s.txns[id := u]);
  }

  lemma QuietStepKeepsRow(column: Column, s: Sys, e: Event, a: AccountId)
    requires Locks(s) && Grants(s) && Enabled(s, e) && a in s.acquired && (e.Begin? || e.Advance? || e.Rollback?)
    ensures var s' := Step(column, s, e);
            s'.acquired == s.acquired && s'.commits == s.commits
            && LockOrder(s'.acquired[a], s'.txns) == LockOrder(s.acquired[a], s.txns)
  {
    hide LockOrder, CommitOrder, NextStatement;
    var s' := Step(column, s, e);
    if e.Advance? {
      NextStatementStaysActive(column, s.txns[e.id], s.db[s.txns[e.id].account]);
    }
    SameCommittedGrants(s, e.id, s'.txns[e.id], a);
  }

  lemma LockKeepsRow(column: Column, s: Sys, e: Event, a: AccountId)
    requires Locks(s) && Grants(s) && Enabled(s, e) && a in s.acquired && e.Lock?
    ensures var s' := Step(column, s, e);
            s'.commits == s.commits && a in s'.acquired
            && LockOrder(s'.acquired[a], s'.txns) == LockOrder(s.acquired[a], s.txns)
  {
    hide CommitOrder;
    var s' := Step(column, s, e);
    SameCommittedGrants(s, e.id, s'.txns[e.id], a);
    if a == s.txns[e.id].account {
      assert s'.acquired[a][..|s'.acquired[a]| - 1] == s.acquired[a];
    }
  }

  lemma RecordKeepsRow(column: Column, s: Sys, e: Event, a: AccountId)
    requires Locks(s) && Grants(s) && Enabled(s, e) && a in s.acquired && e.Record?
    ensures var s' := Step(column, s, e);
            s'.acquired == s.acquired && CommitOrder(s'.commits, a) == CommitOrder(s.commits, a)
            && LockOrder(s'.acquired[a], s'.txns) == LockOrder(s.acquired[a], s.txns)
  {
    hide LockOrder, Reject;
    var s' := Step(column, s, e);
    assert s'.commits[..|s.commits|] == s.commits;
    SameCommittedGrants(s, e.id, s'.txns[e.id], a);
  }

  /** A commit and its lock grant are the newest of their row. */
  lemma CommitKeepsRow(column: Column, s: Sys, e: Event, a: AccountId)
    requires Locks(s) && Grants(s) && Enabled(s, e) && a in s.acquired && e.CommitTx?
    ensures var s' := Step(column, s, e);
            var newest := if a == s.txns[e.id].account then [e.id] else [];
            && s'.acquired == s.acquired && CommitOrder(s'.commits, a) == CommitOrder(s.commits, a) + newest
            && LockOrder(s'.acquired[a], s'.txns) == LockOrder(s.acquired[a], s.txns) + newest
  {
    hide LockOrder, Apply;
    var s' := Step(column, s, e);
    assert s'.commits[..|s.commits|] == s.commits;
    if a == s.txns[e.id].account {
      NewestGrantCommits(s, e.id, s'.txns[e.id], a);
    } else {
      SameCommittedGrants(s, e.id, s'.txns[e.id], a);
    }
  }

  lemma StepKeepsLockOrder(column: Column, s: Sys, e: Event)
    requires Locks(s) && Grants(s) && InLockOrder(s) && Enabled(s, e)
    ensures InLockOrder(Step(column, s, e))
  {
    hide LockOrder, CommitOrder, NextStatement, Apply, Reject, Release;
    var s' := Step(column, s, e);
    forall a | a in s'.acquired ensures LockOrder(s'.acquired[a], s'.txns) == CommitOrder(s'.commits, a) {
      assert s'.acquired.Keys == s.acquired.Keys;
      match e
      case Lock(_) => LockKeepsRow(column, s, e, a);
      case CommitTx(_) => CommitKeepsRow(column, s, e, a);
      case Record(_, _, _, _) => RecordKeepsRow(column, s, e, a);
      case _ => QuietStepKeepsRow(column, s, e, a);
    }
  }

  lemma LockPutsOnTrack(column: Column, t: Txn, rows: Account)
    requires t.draft == NOTHING
    ensures OnTrack(column, t.(pc := HasLock, balance := rows.balance), rows)
  {}

  lemma StepKeepsHoldersOnTrack(column: Column, s: Sys, e: Event)
    requires Locks(s) && HoldersOnTrack(column, s) && Enabled(s, e)
    ensures HoldersOnTrack(column, Step(column, s, e))
  {
    hide OnTrack, NextStatement, Apply;
    var s' := Step(column, s, e);
    if e.Advance? {
      NextStatementStaysActive(column, s.txns[e.id], s.db[s.txns[e.id].account]);
    }
    forall a | a in s'.holder && s'.holder[a] in s'.txns && a in s'.db
      ensures OnTrack(column, s'.txns[s'.holder[a]], s'.db[a])
    {
      var id := s'.holder[a];
      if e.Lock? && id == e.id {
        LockPutsOnTrack(column, s.txns[id], s.db[a]);
      } else if e.Advance? && id == e.id {
        NextStatementStaysOnTrack(column, s.txns[id], s.db[a]);
      } else if e.Record? && a == e.account {
        OnTrackIgnoresOrders(column, s.txns[id], s.db[a], s'.db[a].orders);
      } else {
        assert s'.txns[id] == s.txns[id] && s'.db[a] == s.db[a];
      }
    }
  }

  /** A commit publishes exactly its order's effect; nothing else publishes anything. */
  lemma StepReplays(column: Column, db: map<AccountId, Account>, s: Sys, e: Event)
    requires Locks(s) && HoldersOnTrack(column, s) && Enabled(s, e) && s.db == Replay(column, db, s.commits)
    ensures Step(column, s, e).db == Replay(column, db, Step(column, s, e).commits)
    ensures Step(column, s, e).db.Keys == s.db.Keys
  {
    hide OnTrack, NextStatement, Apply, Execute, Reject, Release;
    var s' := Step(column, s, e);
    if e.CommitTx? {
      StatementsAreTheOrder(column, s.txns[e.id], s.db[s.txns[e.id].account]);
    }
    if s'.commits != s.commits {
      assert s'.commits[..|s'.commits| - 1] == s.commits;
    }
  }

  lemma StepKeepsInv(column: Column, db: map<AccountId, Account>, s: Sys, e: Event)
    requires Inv(column, db, s)
    ensures Inv(column, db, Step(column, s, e))
  {
    if Enabled(s, e) {
      StepKeepsLocks(column, s, e);
      StepKeepsGrants(column, s, e);
      StepKeepsLockOrder(column, s, e);
      StepKeepsHoldersOnTrack(column, s, e);
      StepReplays(column, db, s, e);
    }
  }

  lemma {:induction false} RunKeepsInv(column: Column, db: map<AccountId, Account>, events: seq<Event>)
    ensures Inv(column, db, Run(column, db, events))
  {
    if events != [] {
      RunKeepsInv(column, db, events[..|events| - 1]);
      StepKeepsInv(column, db, Run(column, db, events[..|events| - 1]), events[|events| - 1]);
    }
  }

  /** Serializability. Whatever the interleaving and wherever transactions are rolled back, the
      committed state is the committed orders run whole, one after another; and on every account that
      serial order is the order in which the account's row was locked. */
  lemma Serializable(column: Column, db: map<AccountId, Account>, events: seq<Event>)
    ensures var s := Run(column, db, events);
            && s.db == Replay(column, db, s.commits)
            && forall a :: a in db ==> a in s.acquired && CommitOrder(s.commits, a) == LockOrder(s.acquired[a], s.txns)
  {
    RunKeepsInv(column, db, events);
  }

  // ---- safety of every run

  /** Every order id is the id of the one transaction that committed it. */
  ghost predicate Ids(s: Sys) {
    && (forall id :: id in s.txns ==> s.txns[id].p.orderId == id)
    && forall a :: a in s.db ==>
         && DistinctIds(s.db[a].orders)
         && forall i :: 0 <= i < |s.db[a].orders| ==>
              s.db[a].orders[i].id in s.txns && s.txns[s.db[a].orders[i].id].pc == Committed
  }

  ghost predicate Safe(db: map<AccountId, Account>) {
    forall a :: a in db ==> NothingNegative(db[a]) && TradesAreFills(db[a])
  }

  lemma ExecuteAppendsOwnOrder(column: Column, a: Account, p: OrderParams)
    requires p.side != OtherSide
    ensures var b := Execute(column, a, p);
            |b.orders| == |a.orders| + 1 && b.orders[..|a.orders|] == a.orders && b.orders[|a.orders|].id == p.orderId
  {}

  lemma AppendKeepsIds(s: Sys, s': Sys, id: TxId, u: Txn, a: AccountId)
    requires Ids(s) && a in s.db && a in s'.db && s'.db == s.db[a := s'.db[a]]
    requires |s'.db[a].orders| == |s.db[a].orders| + 1 && s'.db[a].orders[..|s.db[a].orders|] == s.db[a].orders
    requires s'.db[a].orders[|s.db[a].orders|].id == id
    requires s'.txns == s.txns[id := u] && u.pc == Committed && u.p.orderId == id
    requires id in s.txns ==> s.txns[id].pc != Committed
    ensures Ids(s')
  {}

  lemma MoveKeepsIds(s: Sys, s': Sys, id: TxId, u: Txn)
    requires Ids(s) && s'.db == s.db && s'.txns == s.txns[id := u] && u.p.orderId == id
    requires id in s.txns ==> s.txns[id].pc != Committed
    ensures Ids(s')
  {}

  lemma StepKeepsIds(column: Column, s: Sys, e: Event)
    requires Ids(s) && HoldersOnTrack(column, s) && Locks(s) && Enabled(s, e)
    ensures Ids(Step(column, s, e))
  {
    hide OnTrack, NextStatement, Apply, Execute, Release;
    var s' := Step(column, s, e);
    if e.CommitTx? {
      var t := s.txns[e.id];
      StatementsAreTheOrder(column, t, s.db[t.account]);
      ExecuteAppendsOwnOrder(column, s.db[t.account], t.p);
      AppendKeepsIds(s, s', e.id, s'.txns[e.id], t.account);
    } else if e.Record? {
      AppendKeepsIds(s, s', e.id, s'.txns[e.id], e.account);
    } else {
      if e.Advance? {
        NextStatementStaysActive(column, s.txns[e.id], s.db[s.txns[e.id].account]);
      }
      MoveKeepsIds(s, s', e.id, s'.txns[e.id]);
    }
  }

  lemma RejectKeepsSafe(rows: Account, p: OrderParams, reason: string)
    requires NothingNegative(rows) && TradesAreFills(rows)
    ensures NothingNegative(Reject(rows, p, reason)) && TradesAreFills(Reject(rows, p, reason))
  {
    assert Reject(rows, p, reason).orders[..|rows.orders|] == rows.orders;
  }

  lemma StepKeepsSafe(column: Column, s: Sys, e: Event)
    requires Safe(s.db) && Locks(s) && HoldersOnTrack(column, s) && Enabled(s, e)
    ensures Safe(Step(column, s, e).db)
  {
    hide OnTrack, NextStatement, Apply, Execute, Reject, TradesAreFills, NothingNegative, Release;
    if e.CommitTx? {
      var t := s.txns[e.id];
      StatementsAreTheOrder(column, t, s.db[t.account]);
      ExecuteKeepsNonnegative(column, s.db[t.account], t.p);
      ExecuteKeepsTradesAreFills(column, s.db[t.account], t.p);
    } else if e.Record? {
      RejectKeepsSafe(s.db[e.account], e.p, e.reason);
    }
  }

  /** On accounts opened with no history and no debt, every reachable committed state has no negative
      balance or position, and its filled orders and its trades correspond one to one. */
  lemma {:induction false} EveryRunIsSafe(column: Column, db: map<AccountId, Account>, events: seq<Event>)
    requires forall a :: a in db ==> NothingNegative(db[a]) && db[a].orders == [] && db[a].trades == []
    ensures Safe(Run(column, db, events).db) && Ids(Run(column, db, events))
  {
    if events != [] {
      var before := events[..|events| - 1];
      EveryRunIsSafe(column, db, before);
      RunKeepsInv(column, db, before);
      var s, e := Run(column, db, before), events[|events| - 1];
      if Enabled(s, e) {
        StepKeepsIds(column, s, e);
        StepKeepsSafe(column, s, e);
      }
    }
  }
}
