/**
 What holds over every run of PointsMachine: serializability, soundness of the
 tables, what callers were told, and absence of deadlock.
 */
module PointsRuns {
  import opened Options
  import opened PointsDatabase
  import opened PointsMachine

  // ---------------------------------------------------------------- commit

  /** At COMMIT the workspace holds exactly what executing the request alone would write. */
  lemma CommitIsSerial(s: State, t: Tid)
    requires Live(s, t) && s.txns[t].stage == Commit && TxnInv(s, t)
    ensures var (db', outcome) := Execute(s.db, s.txns[t].req, s.txns[t].row.value.id);
            StepCommit(s, t).db == db' && StepCommit(s, t).txns[t].stage == Finished(outcome)
    ensures Posts(s.db, s.txns[t].req, s.txns[t].row.value.id)
  {
  }

  lemma CommitFrame(s: State, t: Tid, u: Tid)
    requires Live(s, t) && s.txns[t].row.Some? && u in s.txns && u != t
    ensures var s' := StepCommit(s, t);
            && u in s'.txns && s'.txns[u] == s.txns[u] && s'.nextId == s.nextId
            && s'.rewardLocks == Unlock(s.rewardLocks, t)
            && s'.balanceLocks == Unlock(s.balanceLocks, t)
            && s'.keyLocks == Unlock(s.keyLocks, t)
  {
    hide Visible;
  }

  lemma StillHolds<K>(locks: map<K, Tid>, k: K, t: Tid, u: Tid)
    requires u != t
    ensures Holds(locks, k, u) <==> Holds(Unlock(locks, t), k, u)
  {
  }

  /** Another transaction's commit cannot change what t has locked. */
  lemma CommitKeepsOther(s: State, t: Tid, u: Tid)
    requires Inv(s) && Live(s, t) && s.txns[t].stage == Commit
    requires u in s.txns && u != t
    ensures TxnInv(StepCommit(s, t), u)
  {
    TxnInvOf(s, t);
    TxnInvOf(s, u);
    CommitFrame(s, t, u);
    if Live(s, u) {
      CommitKeepsBalance(s, t, u);
      CommitKeepsReward(s, t, u);
      CommitKeepsRow(s, t, u);
      CommitKeepsEntry(s, t, u);
      StillHolds(s.balanceLocks, s.txns[u].req.user, t, u);
      if s.txns[u].req.Redeem? {
        StillHolds(s.rewardLocks, s.txns[u].req.reward, t, u);
        StillHolds(s.keyLocks, s.txns[u].req.key, t, u);
      }
    }
    hide Inv, StepCommit, BalanceKnown, RewardKnown, RowKnown, EntryKnown, AmountKnown, Unlock, Holds;
  }

  lemma CommitKeepsBalance(s: State, t: Tid, u: Tid)
    requires Live(s, t) && s.txns[t].stage == Commit && TxnInv(s, t)
    requires Live(s, u) && u != t && TxnInv(s, u)
    ensures 5 <= Rank(s.txns[u].stage) ==> BalanceKnown(StepCommit(s, t).db, s.txns[u])
    ensures s.txns[u].req.user in s.db.balances ==> s.txns[u].req.user in StepCommit(s, t).db.balances
    ensures StepCommit(s, t).db.users == s.db.users
  {
  }

  lemma CommitKeepsReward(s: State, t: Tid, u: Tid)
    requires Live(s, t) && s.txns[t].stage == Commit && TxnInv(s, t)
    requires Live(s, u) && u != t && TxnInv(s, u)
    ensures 3 <= Rank(s.txns[u].stage) && s.txns[u].req.Redeem? ==> RewardKnown(StepCommit(s, t).db, s.txns[u])
  {
  }

  lemma CommitAppendsRow(s: State, t: Tid)
    requires t in s.txns && s.txns[t].row.Some?
    ensures StepCommit(s, t).db.ledger == s.db.ledger + [s.txns[t].row.value]
    ensures StepCommit(s, t).nextId == s.nextId
  {
  }

  /** Two transactions with ledger rows have locked different users' balances, and drawn different ids. */
  lemma RowsAreApart(s: State, t: Tid, u: Tid)
    requires Inv(s) && t != u && Live(s, t) && Live(s, u) && 7 <= Rank(s.txns[t].stage) && 7 <= Rank(s.txns[u].stage)
    ensures s.txns[t].row.Some? && s.txns[u].row.Some? && s.txns[t].row.value.id != s.txns[u].row.value.id
    ensures s.txns[t].row.value.user == s.txns[t].req.user != s.txns[u].req.user
  {
    hide LocksOwned, RewardKnown, BalanceKnown, EntryKnown, AmountKnown, RowAccepted;
    TxnInvOf(s, t);
    TxnInvOf(s, u);
  }

  lemma CommitKeepsRow(s: State, t: Tid, u: Tid)
    requires Inv(s) && Live(s, t) && s.txns[t].stage == Commit
    requires Live(s, u) && u != t
    ensures s.txns[t].row.Some?
    ensures 7 <= Rank(s.txns[u].stage) ==> RowKnown(StepCommit(s, t), s.txns[u])
  {
    hide Inv, StepCommit, BalanceKnown, RewardKnown, EntryKnown, AmountKnown, RowAccepted;
    TxnInvOf(s, t);
    TxnInvOf(s, u);
    if 7 <= Rank(s.txns[u].stage) {
      RowsAreApart(s, t, u);
      CommitAppendsRow(s, t);
    }
  }

  lemma FindKeyAppend(redemptions: seq<Redemption>, r: Redemption, key: string)
    requires FindKey(redemptions, key).None? && r.key != key
    ensures FindKey(redemptions + [r], key).None?
  {
    assert forall x :: x in redemptions + [r] ==> x.key != key;
  }

  lemma CommitKeepsEntry(s: State, t: Tid, u: Tid)
    requires Live(s, t) && s.txns[t].stage == Commit && TxnInv(s, t)
    requires Live(s, u) && u != t && TxnInv(s, u)
    ensures s.txns[u].stage == Commit ==> EntryKnown(StepCommit(s, t).db, s.txns[u])
  {
    if s.txns[u].stage == Commit && s.txns[u].req.Redeem? && s.txns[t].req.Redeem? {
      FindKeyAppend(s.db.redemptions, s.txns[t].redemption.value, s.txns[u].req.key);
    }
  }

  lemma CommitKeepsRewardLocks(s: State, t: Tid, r: int)
    requires LocksOwned(s) && Live(s, t) && s.txns[t].row.Some? && r in StepCommit(s, t).rewardLocks
    ensures RewardHolder(StepCommit(s, t), StepCommit(s, t).rewardLocks[r], r)
  {
    assert r in s.rewardLocks && s.rewardLocks[r] != t;
    assert RewardHolder(s, s.rewardLocks[r], r);
    CommitFrame(s, t, s.rewardLocks[r]);
    hide LocksOwned, StepCommit;
  }

  /** A user whose balance row t does not hold keeps having one, or having none. */
  lemma CommitKeepsBalances(s: State, t: Tid, user: int)
    requires Live(s, t) && s.txns[t].stage == Commit && TxnInv(s, t) && !Holds(s.balanceLocks, user, t)
    ensures user in s.db.balances <==> user in StepCommit(s, t).db.balances
  {
    hide RewardKnown, BalanceKnown, EntryKnown, AmountKnown;
  }

  lemma CommitKeepsBalanceLocks(s: State, t: Tid, user: int)
    requires LocksOwned(s) && Live(s, t) && s.txns[t].stage == Commit && TxnInv(s, t)
    requires user in StepCommit(s, t).balanceLocks
    ensures BalanceHolder(StepCommit(s, t), StepCommit(s, t).balanceLocks[user], user)
  {
    assert user in s.balanceLocks && s.balanceLocks[user] != t;
    assert BalanceHolder(s, s.balanceLocks[user], user);
    CommitFrame(s, t, s.balanceLocks[user]);
    CommitKeepsBalances(s, t, user);
    hide LocksOwned, StepCommit, TxnInv;
  }

  lemma CommitKeepsKeyLocks(s: State, t: Tid, key: string)
    requires LocksOwned(s) && Live(s, t) && s.txns[t].row.Some? && key in StepCommit(s, t).keyLocks
    ensures KeyHolder(StepCommit(s, t), StepCommit(s, t).keyLocks[key], key)
  {
    assert key in s.keyLocks && s.keyLocks[key] != t;
    assert KeyHolder(s, s.keyLocks[key], key);
    CommitFrame(s, t, s.keyLocks[key]);
    hide LocksOwned, StepCommit;
  }

  lemma CommitKeepsLocks(s: State, t: Tid)
    requires LocksOwned(s) && Live(s, t) && s.txns[t].stage == Commit && TxnInv(s, t)
    ensures LocksOwned(StepCommit(s, t))
  {
    assert s.txns[t].row.Some?;
    hide StepCommit, TxnInv, RewardHolder, BalanceHolder, KeyHolder;
    var s' := StepCommit(s, t);
    forall r | r in s'.rewardLocks
      ensures RewardHolder(s', s'.rewardLocks[r], r)
    {
      CommitKeepsRewardLocks(s, t, r);
    }
    forall u | u in s'.balanceLocks
      ensures BalanceHolder(s', s'.balanceLocks[u], u)
    {
      CommitKeepsBalanceLocks(s, t, u);
    }
    forall k | k in s'.keyLocks
      ensures KeyHolder(s', s'.keyLocks[k], k)
    {
      CommitKeepsKeyLocks(s, t, k);
    }
  }

  lemma CommitKeepsIds(s: State, t: Tid)
    requires IdsDistinct(s) && Live(s, t) && s.txns[t].stage == Commit && TxnInv(s, t)
    ensures IdsDistinct(StepCommit(s, t))
  {
    CommitAppendsRow(s, t);
    var (s', row) := (StepCommit(s, t), s.txns[t].row.value);
    assert row.id < s.nextId == s'.nextId;
    forall u | Live(s', u)
      ensures Live(s, u) && s'.txns[u] == s.txns[u]
    {
      assert u != t;
      CommitFrame(s, t, u);
    }
    hide StepCommit, TxnInv;
  }

  lemma CommittedIsKnown(s: State, t: Tid)
    requires Live(s, t) && s.txns[t].stage == Commit && s.txns[t].row.Some?
    ensures StepCommit(s, t).txns.Keys == s.txns.Keys && TxnInv(StepCommit(s, t), t)
  {
    hide Visible;
  }

  lemma CommitKeepsInv(s: State, t: Tid)
    requires Inv(s) && Live(s, t) && s.txns[t].stage == Commit
    ensures Inv(StepCommit(s, t))
  {
    TxnInvOf(s, t);
    assert s.txns[t].row.Some?;
    hide LocksOwned, IdsDistinct, TxnInv, StepCommit;
    var s' := StepCommit(s, t);
    CommitKeepsLocks(s, t);
    CommitKeepsIds(s, t);
    CommittedIsKnown(s, t);
    forall u | u in s'.txns
      ensures TxnInv(s', u)
    {
      if u != t {
        CommitKeepsOther(s, t, u);
      }
    }
  }

  lemma StepKeepsInv(s: State, t: Tid)
    requires Inv(s) && Enabled(s, t) && Shaped(s.txns[t])
    ensures Inv(Step(s, t))
  {
    if s.txns[t].stage == Commit {
      CommitKeepsInv(s, t);
    } else {
      PerformKeepsInv(s, t);
    }
  }

  lemma ApplyKeepsInv(s: State, a: Action)
    requires Inv(s)
    ensures Inv(Apply(s, a))
  {
    match a
    case Begin(t, req) =>
      if t !in s.txns {
        BeginKeepsInv(s, t, req);
      }
    case Advance(t) =>
      if Enabled(s, t) && Shaped(s.txns[t]) {
        StepKeepsInv(s, t);
      }
    case Lose(t) =>
      if Live(s, t) {
        LoseKeepsInv(s, t, ConnectionLost);
      }
  }

  // ---------------------------------------------------------------- serializability and soundness

  /** Whether this action commits writes. */
  predicate Commits(s: State, a: Action) {
    a.Advance? && Live(s, a.t) && s.txns[a.t].stage == Commit && Shaped(s.txns[a.t])
  }

  lemma OnlyCommitWrites(s: State, a: Action)
    requires !Commits(s, a)
    ensures Apply(s, a).db == s.db && Apply(s, a).log == s.log
  {
  }

  lemma CommitsIsStepCommit(s: State, a: Action)
    requires Commits(s, a)
    ensures Apply(s, a) == StepCommit(s, a.t)
  {
  }

  /** Reading one user's rows in id order gives them in the order of the chain. */
  ghost predicate IdsFollowChain(ledger: seq<LedgerRow>) {
    forall i, j :: 0 <= i < j < |ledger| && ledger[i].user == ledger[j].user ==> ledger[i].id < ledger[j].id
  }

  ghost predicate Good(start: Db, s: State) {
    && Inv(s)
    && s.db == Replay(start, s.log)
    && Sound(s.db)
    && StockAccounted(start, s.db)
    && IdsFollowChain(s.db.ledger)
  }

  lemma CommitKeepsIdOrder(s: State, t: Tid)
    requires Live(s, t) && s.txns[t].stage == Commit && TxnInv(s, t) && IdsFollowChain(s.db.ledger)
    ensures IdsFollowChain(StepCommit(s, t).db.ledger)
  {
    CommitAppendsRow(s, t);
    hide StepCommit, Visible;
  }

  lemma CommitKeepsGood(start: Db, s: State, t: Tid)
    requires Good(start, s) && Live(s, t) && s.txns[t].stage == Commit
    ensures Good(start, StepCommit(s, t))
  {
    assert TxnInv(s, t);
    CommitKeepsInv(s, t);
    CommitKeepsIdOrder(s, t);
    CommitKeepsTables(start, s, t);
  }

  lemma CommitKeepsTables(start: Db, s: State, t: Tid)
    requires Live(s, t) && s.txns[t].stage == Commit && TxnInv(s, t)
    requires s.db == Replay(start, s.log) && Sound(s.db) && StockAccounted(start, s.db)
    ensures var s' := StepCommit(s, t); s'.db == Replay(start, s'.log) && Sound(s'.db) && StockAccounted(start, s'.db)
  {
    var (req, id) := (s.txns[t].req, s.txns[t].row.value.id);
    CommitIsSerial(s, t);
    assert FreshId(s.db, id);
    hide TxnInv, Sound, StockAccounted, FreshId, Execute, Replay, Visible;
    ReplayAppend(start, s.log, Entry(req, id));
    ExecuteKeepsSound(s.db, req, id);
    ExecuteKeepsStock(start, s.db, req, id);
  }

  lemma SameTablesKeepGood(start: Db, s: State, s': State)
    requires Good(start, s) && Inv(s') && s'.db == s.db && s'.log == s.log
    ensures Good(start, s')
  {
  }

  lemma ApplyKeepsGood(start: Db, s: State, a: Action)
    requires Good(start, s)
    ensures Good(start, Apply(s, a))
  {
    if Commits(s, a) {
      CommitsIsStepCommit(s, a);
      CommitKeepsGood(start, s, a.t);
    } else {
      ApplyKeepsInv(s, a);
      OnlyCommitWrites(s, a);
      SameTablesKeepGood(start, s, Apply(s, a));
    }
  }

  /** Starting tables: sound, with the sequence ahead of every id and ids in chain order. */
  ghost predicate Startable(start: Db, nextId: nat) {
    Sound(start) && IdsFollowChain(start.ledger) && forall row :: row in start.ledger ==> row.id < nextId
  }

  lemma {:induction false} RunIsGood(start: Db, nextId: nat, actions: seq<Action>)
    requires Startable(start, nextId)
    ensures Good(start, Run(Initial(start, nextId), actions))
  {
    if actions != [] {
      RunIsGood(start, nextId, actions[..|actions| - 1]);
      ApplyKeepsGood(start, Run(Initial(start, nextId), actions[..|actions| - 1]), actions[|actions| - 1]);
    }
  }

  /**
   Serializability: whatever the interleaving, the committed tables are those of
   executing the committed requests one after the other, in commit order.
   */
  lemma RunIsSerial(start: Db, nextId: nat, actions: seq<Action>)
    requires Startable(start, nextId)
    ensures var s := Run(Initial(start, nextId), actions); s.db == Replay(start, s.log)
  {
    RunIsGood(start, nextId, actions);
  }

  /**
   After every run: unbroken non-negative chains from 0, balances equal to the
   last balance_after and to the signed sum, rows of a user in id order, stock
   accounted for and never negative, each redemption paid by its own row, each
   key redeemed at most once.
   */
  lemma RunIsSound(start: Db, nextId: nat, actions: seq<Action>, user: int)
    requires Startable(start, nextId)
    ensures var db := Run(Initial(start, nextId), actions).db;
            var rows := UserRows(db.ledger, user);
            && Chained(rows)
            && BalanceOf(db, user) == LastAfter(rows) == SignedSum(rows) >= 0
            && IdsFollowChain(db.ledger)
            && (forall r :: r in db.rewards ==> db.rewards[r].stock >= 0)
            && StockAccounted(start, db)
            && UniqueKeys(db.redemptions)
            && Paid(db)
  {
    RunIsGood(start, nextId, actions);
    var db := Run(Initial(start, nextId), actions).db;
    assert Account(db, user);
    var rows := UserRows(db.ledger, user);
    if rows != [] {
      assert Links(LastAfter(rows[..|rows| - 1]), rows[|rows| - 1]);
    }
  }

  /**
   Over every run from tables where it holds, a user's balance is what the user's 'earned',
   'bonus' and 'referral' rows give, less what the 'redeemed' and 'expired' rows take.
   */
  lemma {:induction false} BalanceIsEarnedLessSpent(start: Db, nextId: nat, actions: seq<Action>)
    requires Startable(start, nextId) && BalancesAreEarnings(start)
    ensures BalancesAreEarnings(Run(Initial(start, nextId), actions).db)
  {
    if actions != [] {
      var before := actions[..|actions| - 1];
      var s := Run(Initial(start, nextId), before);
      var a := actions[|actions| - 1];
      BalanceIsEarnedLessSpent(start, nextId, before);
      RunIsGood(start, nextId, before);
      hide BalancesAreEarnings, Startable, Sound, Replay, StockAccounted, IdsFollowChain, LocksOwned, IdsDistinct, Run;
      hide Execute, Apply, StepCommit;
      if Commits(s, a) {
        TxnInvOf(s, a.t);
        CommitsIsStepCommit(s, a);
        CommitIsSerial(s, a.t);
        ExecuteKeepsEarnings(s.db, s.txns[a.t].req, s.txns[a.t].row.value.id);
      } else {
        OnlyCommitWrites(s, a);
      }
    }
  }

  // ---------------------------------------------------------------- what callers are told

  /** A finished transaction's answer is what the tables hold, and stays so. */
  predicate Told(s: State, t: Tid)
    requires t in s.txns
  {
    s.txns[t].stage.Finished? ==>
      var req := s.txns[t].req;
      match s.txns[t].stage.outcome
      case Recorded(row) => row in s.db.ledger
      case Fresh(r, row) =>
        req.Redeem? && r in s.db.redemptions && row in s.db.ledger && r.key == req.key && r.txId == row.id &&
        FindKey(s.db.redemptions, req.key) == Some(r)
      case Replayed(r, balance) =>
        req.Redeem? && FindKey(s.db.redemptions, req.key) == Some(r) && balance.Some? &&
        FindAfter(s.db.ledger, r.txId) == balance
      case Refused(_) => true
  }

  /** No two transactions are told that they made the redemption of one key. */
  ghost predicate OneMaker(s: State) {
    forall t, u :: t != u && MadeRedemption(s, t) && MadeRedemption(s, u) ==> s.txns[t].req.key != s.txns[u].req.key
  }

  predicate MadeRedemption(s: State, t: Tid) {
    t in s.txns && s.txns[t].req.Redeem? && s.txns[t].stage.Finished? && s.txns[t].stage.outcome.Fresh?
  }

  ghost predicate Answers(s: State) {
    (forall t :: t in s.txns ==> Told(s, t)) && OneMaker(s)
  }

  /** Under the invariant a stored redemption's paying row is there to be joined. */
  lemma StoredRedemptionHasBalance(db: Db, key: string)
    requires Paid(db) && FindKey(db.redemptions, key).Some?
    ensures FindAfter(db.ledger, FindKey(db.redemptions, key).value.txId).Some?
  {
    assert PaidBy(db, FindKey(db.redemptions, key).value);
  }

  lemma FindKeyAppended(redemptions: seq<Redemption>, r: Redemption)
    requires FindKey(redemptions, r.key).None?
    ensures FindKey(redemptions + [r], r.key) == Some(r)
  {
    var found := FindKey(redemptions + [r], r.key);
    assert r in redemptions + [r];
  }

  lemma TablesGrow(db: Db, req: Request, id: nat)
    ensures db.ledger <= Execute(db, req, id).0.ledger
    ensures db.redemptions <= Execute(db, req, id).0.redemptions
  {
  }

  lemma ToldStays(s: State, s': State, t: Tid)
    requires t in s.txns && Told(s, t) && t in s'.txns && s'.txns[t] == s.txns[t]
    requires s.db.ledger <= s'.db.ledger && s.db.redemptions <= s'.db.redemptions
    ensures Told(s', t)
  {
    if s.txns[t].stage.Finished? && s.txns[t].req.Redeem? {
      var (ledger, redemptions) := (s.db.ledger, s.db.redemptions);
      assert s'.db.ledger == ledger + s'.db.ledger[|ledger|..];
      assert s'.db.redemptions == redemptions + s'.db.redemptions[|redemptions|..];
      if FindKey(redemptions, s.txns[t].req.key).Some? {
        FindKeyStable(redemptions, s'.db.redemptions[|redemptions|..], s.txns[t].req.key);
        var id := FindKey(redemptions, s.txns[t].req.key).value.txId;
        if FindAfter(ledger, id).Some? {
          FindAfterStable(ledger, s'.db.ledger[|ledger|..], id);
        }
      }
    }
  }

  lemma ApplyGrows(start: Db, s: State, a: Action)
    requires Good(start, s)
    ensures s.db.ledger <= Apply(s, a).db.ledger && s.db.redemptions <= Apply(s, a).db.redemptions
  {
    hide Inv, Sound, Replay, StockAccounted, IdsFollowChain;
    if Commits(s, a) {
      TxnInvOf(s, a.t);
      CommitsIsStepCommit(s, a);
      CommitIsSerial(s, a.t);
      hide TxnInv, Apply, Execute;
      TablesGrow(s.db, s.txns[a.t].req, s.txns[a.t].row.value.id);
    } else {
      OnlyCommitWrites(s, a);
    }
  }

  lemma CommitToldItself(s: State, t: Tid)
    requires Live(s, t) && s.txns[t].stage == Commit && TxnInv(s, t)
    ensures Told(StepCommit(s, t), t)
  {
    if s.txns[t].req.Redeem? {
      FindKeyAppended(s.db.redemptions, s.txns[t].redemption.value);
    }
  }

  lemma StepToldItself(start: Db, s: State, t: Tid)
    requires Good(start, s) && Enabled(s, t) && Shaped(s.txns[t])
    ensures t in Step(s, t).txns && Told(Step(s, t), t)
  {
    assert TxnInv(s, t);
    if s.txns[t].stage == Commit {
      CommitToldItself(s, t);
    } else {
      EffectMakesNothing(s, s.txns[t]);
      if s.txns[t].stage == CheckKey && FindKey(s.db.redemptions, s.txns[t].req.key).Some? {
        StoredRedemptionHasBalance(s.db, s.txns[t].req.key);
      }
    }
  }

  /** Only COMMIT tells a caller that it made a redemption. */
  lemma EffectMakesNothing(s: State, txn: Txn)
    requires Shaped(txn) && Rank(txn.stage) < 8
    ensures EffectOf(s, txn).End? ==> !EffectOf(s, txn).outcome.Fresh? && !EffectOf(s, txn).outcome.Recorded?
    ensures EffectOf(s, txn).End? && EffectOf(s, txn).outcome.Replayed? ==> txn.stage == CheckKey
    ensures EffectOf(s, txn).Go? ==> !EffectOf(s, txn).txn.stage.Finished? && EffectOf(s, txn).txn.req == txn.req
  {
  }

  lemma StepMakesFreshKey(s: State, t: Tid)
    requires Inv(s) && Enabled(s, t) && Shaped(s.txns[t]) && MadeRedemption(Step(s, t), t)
    ensures FindKey(s.db.redemptions, s.txns[t].req.key).None?
    ensures Step(s, t).txns[t].req == s.txns[t].req
  {
    assert TxnInv(s, t);
    if s.txns[t].stage != Commit {
      EffectMakesNothing(s, s.txns[t]);
    }
  }

  /** An action touches no transaction but its own. */
  lemma ApplyFrame(s: State, a: Action, t: Tid)
    requires t in s.txns && t != a.t
    ensures t in Apply(s, a).txns && Apply(s, a).txns[t] == s.txns[t]
  {
    if a.Advance? && Enabled(s, a.t) && Shaped(s.txns[a.t]) {
      StepAdvances(s, a.t);
    }
  }

  lemma ApplyKeepsTold(start: Db, s: State, a: Action, t: Tid)
    requires Good(start, s) && Answers(s) && t in Apply(s, a).txns
    ensures Told(Apply(s, a), t)
  {
    ApplyGrows(start, s, a);
    if t in s.txns && t != a.t {
      ApplyFrame(s, a, t);
      ToldStays(s, Apply(s, a), t);
    } else if t == a.t && a.Advance? && Enabled(s, t) && Shaped(s.txns[t]) {
      StepToldItself(start, s, t);
    } else if t in s.txns {
      assert Told(s, t);
    } else {
      NothingFromNowhere(s, a, t);
    }
  }

  lemma NothingFromNowhere(s: State, a: Action, t: Tid)
    requires t !in s.txns && t in Apply(s, a).txns
    ensures a.Begin? && a.t == t && Apply(s, a).txns[t] == NewTxn(a.req)
  {
    if a.Advance? && Enabled(s, a.t) && Shaped(s.txns[a.t]) {
      StepAdvances(s, a.t);
    }
  }

  lemma MakersWereMakers(s: State, a: Action, t: Tid)
    requires MadeRedemption(Apply(s, a), t) && !(a.Advance? && a.t == t && Enabled(s, t) && Shaped(s.txns[t]))
    ensures MadeRedemption(s, t) && Apply(s, a).txns[t] == s.txns[t]
  {
    if t !in s.txns {
      NothingFromNowhere(s, a, t);
    } else if t != a.t {
      ApplyFrame(s, a, t);
    }
  }

  lemma NewMakerHasNewKey(s: State, a: Action, other: Tid)
    requires Inv(s) && Answers(s) && a.Advance? && Enabled(s, a.t) && Shaped(s.txns[a.t]) && other != a.t
    requires MadeRedemption(Apply(s, a), a.t) && MadeRedemption(Apply(s, a), other)
    ensures Apply(s, a).txns[a.t].req.key != Apply(s, a).txns[other].req.key
  {
    StepMakesFreshKey(s, a.t);
    MakersWereMakers(s, a, other);
    assert Told(s, other);
  }

  lemma ApplyKeepsOneMaker(s: State, a: Action)
    requires Inv(s) && Answers(s)
    ensures OneMaker(Apply(s, a))
  {
    var s' := Apply(s, a);
    forall t, u | t != u && MadeRedemption(s', t) && MadeRedemption(s', u)
      ensures s'.txns[t].req.key != s'.txns[u].req.key
    {
      if a.Advance? && Enabled(s, a.t) && Shaped(s.txns[a.t]) && a.t == t {
        NewMakerHasNewKey(s, a, u);
      } else if a.Advance? && Enabled(s, a.t) && Shaped(s.txns[a.t]) && a.t == u {
        NewMakerHasNewKey(s, a, t);
      } else {
        MakersWereMakers(s, a, t);
        MakersWereMakers(s, a, u);
      }
    }
  }

  lemma ApplyKeepsAnswers(start: Db, s: State, a: Action)
    requires Good(start, s) && Answers(s)
    ensures Answers(Apply(s, a))
  {
    forall t | t in Apply(s, a).txns
      ensures Told(Apply(s, a), t)
    {
      ApplyKeepsTold(start, s, a, t);
    }
    ApplyKeepsOneMaker(s, a);
  }

  lemma {:induction false} RunKeepsAnswers(start: Db, nextId: nat, actions: seq<Action>)
    requires Startable(start, nextId)
    ensures Answers(Run(Initial(start, nextId), actions))
  {
    if actions != [] {
      var before := actions[..|actions| - 1];
      RunKeepsAnswers(start, nextId, before);
      RunIsGood(start, nextId, before);
      ApplyKeepsAnswers(start, Run(Initial(start, nextId), before), actions[|actions| - 1]);
    }
  }

  /**
   Idempotency over every run: callers with one key are told of one and the same
   redemption, the stored one, and at most one of them is told it was made now.
   */
  lemma OneRedemptionPerKey(start: Db, nextId: nat, actions: seq<Action>, t: Tid, u: Tid)
    requires Startable(start, nextId)
    requires var s := Run(Initial(start, nextId), actions);
             && t in s.txns && u in s.txns && t != u
             && s.txns[t].req.Redeem? && s.txns[u].req.Redeem? && s.txns[t].req.key == s.txns[u].req.key
             && s.txns[t].stage.Finished? && (s.txns[t].stage.outcome.Fresh? || s.txns[t].stage.outcome.Replayed?)
             && s.txns[u].stage.Finished? && (s.txns[u].stage.outcome.Fresh? || s.txns[u].stage.outcome.Replayed?)
    ensures var s := Run(Initial(start, nextId), actions);
            && s.txns[t].stage.outcome.redemption == s.txns[u].stage.outcome.redemption
            && s.txns[t].stage.outcome.redemption in s.db.redemptions
            && !(s.txns[t].stage.outcome.Fresh? && s.txns[u].stage.outcome.Fresh?)
  {
    RunKeepsAnswers(start, nextId, actions);
    var s := Run(Initial(start, nextId), actions);
    assert Told(s, t) && Told(s, u);
    assert !(MadeRedemption(s, t) && MadeRedemption(s, u));
  }

  /** The key was redeemed by someone else after this transaction had looked. */
  predicate Overtaken(s: State, txn: Txn) {
    txn.req.Redeem? && 2 <= Rank(txn.stage) && FindKey(s.db.redemptions, txn.req.key).Some?
  }

  /** The answer t's next statement gives is a lone run's, exactly unless t was overtaken. */
  predicate SerialIffNotOvertaken(s: State, txn: Txn)
    requires Shaped(txn) && Rank(txn.stage) < 8 && EffectOf(s, txn).End?
  {
    && (EffectOf(s, txn).outcome == Execute(s.db, txn.req, s.nextId).1 <==> !Overtaken(s, txn))
    && !Posts(s.db, txn.req, s.nextId)
  }

  lemma EarlyAnswer(s: State, t: Tid)
    requires Live(s, t) && TxnInv(s, t) && Rank(s.txns[t].stage) <= 2 && EffectOf(s, s.txns[t]).End?
    ensures SerialIffNotOvertaken(s, s.txns[t])
  {
    hide FindAfter, RowAccepted, Round;
  }

  lemma BalanceAnswer(s: State, t: Tid)
    requires Live(s, t) && TxnInv(s, t) && 3 <= Rank(s.txns[t].stage) <= 5 && EffectOf(s, s.txns[t]).End?
    ensures SerialIffNotOvertaken(s, s.txns[t])
  {
    hide FindAfter, RowAccepted, Round, BalanceKnown;
  }

  lemma LateAnswer(s: State, t: Tid)
    requires Live(s, t) && TxnInv(s, t) && 6 <= Rank(s.txns[t].stage) <= 7 && EffectOf(s, s.txns[t]).End?
    ensures SerialIffNotOvertaken(s, s.txns[t])
  {
    hide FindAfter, Round;
    assert BalanceKnown(s.db, s.txns[t]);
  }

  /**
   An answer other than a commit's is the one the request would get if it ran
   alone at that moment, exactly unless it was overtaken: then the source refuses
   where a lone run would replay the stored redemption.
   */
  lemma AnswerIsSerialIffNotOvertaken(s: State, t: Tid)
    requires Inv(s) && Enabled(s, t) && Shaped(s.txns[t]) && s.txns[t].stage != Commit
    requires EffectOf(s, s.txns[t]).End?
    ensures EffectOf(s, s.txns[t]).outcome == Execute(s.db, s.txns[t].req, s.nextId).1 <==> !Overtaken(s, s.txns[t])
    ensures !Posts(s.db, s.txns[t].req, s.nextId)
  {
    TxnInvOf(s, t);
    hide Inv, TxnInv, EffectOf, Execute;
    if Rank(s.txns[t].stage) <= 2 {
      EarlyAnswer(s, t);
    } else if Rank(s.txns[t].stage) <= 5 {
      BalanceAnswer(s, t);
    } else {
      LateAnswer(s, t);
    }
  }

  // ---------------------------------------------------------------- redemptions against 'redeemed' rows

  /** A 'redeemed' row without a redemption never gets one later. */
  lemma UnreferencedStays(db: Db, req: Request, id: nat, row: LedgerRow)
    requires FreshId(db, id) && Unreferenced(db, row)
    ensures Unreferenced(Execute(db, req, id).0, row)
  {
  }

  predicate NoBareRecord(log: seq<Entry>) {
    forall e :: e in log ==> !BareRedeemed(e.req)
  }

  lemma CommitKeepsBijection(start: Db, s: State, t: Tid)
    requires Good(start, s) && Live(s, t) && s.txns[t].stage == Commit
    requires NoUnreferenced(s.db) <==> NoBareRecord(s.log)
    ensures NoUnreferenced(StepCommit(s, t).db) <==> NoBareRecord(StepCommit(s, t).log)
  {
    assert TxnInv(s, t);
    var (req, id) := (s.txns[t].req, s.txns[t].row.value.id);
    CommitIsSerial(s, t);
    if NoUnreferenced(s.db) {
      BijectionIffNoBareRecord(s.db, req, id);
    } else {
      var row :| Unreferenced(s.db, row);
      UnreferencedStays(s.db, req, id, row);
    }
    assert StepCommit(s, t).log == s.log + [Entry(req, id)];
  }

  /**
   Over every run, every 'redeemed' ledger row belongs to a redemption exactly
   when no committed request recorded that type directly; with `Paid` this makes
   redemptions and 'redeemed' rows a bijection.
   */
  lemma {:induction false} RedeemedRowsAreRedemptions(start: Db, nextId: nat, actions: seq<Action>)
    requires Startable(start, nextId) && NoUnreferenced(start)
    ensures var s := Run(Initial(start, nextId), actions); NoUnreferenced(s.db) <==> NoBareRecord(s.log)
  {
    if actions != [] {
      var before := actions[..|actions| - 1];
      var s := Run(Initial(start, nextId), before);
      var a := actions[|actions| - 1];
      RedeemedRowsAreRedemptions(start, nextId, before);
      RunIsGood(start, nextId, before);
      if Commits(s, a) {
        CommitsIsStepCommit(s, a);
        CommitKeepsBijection(start, s, a.t);
      } else {
        OnlyCommitWrites(s, a);
      }
    }
  }

  // ---------------------------------------------------------------- no deadlock

  ghost predicate Furthest(s: State, t: Tid) {
    Live(s, t) && forall u :: Live(s, u) ==> Rank(s.txns[u].stage) <= Rank(s.txns[t].stage)
  }

  lemma FurthestHasReward(s: State, t: Tid)
    requires LocksOwned(s) && Furthest(s, t) && s.txns[t].stage == LockReward && s.txns[t].req.Redeem?
    ensures s.txns[t].req.reward !in s.rewardLocks
  {
    var reward := s.txns[t].req.reward;
    assert reward in s.rewardLocks ==> RewardHolder(s, s.rewardLocks[reward], reward);
  }

  lemma FurthestHasBalance(s: State, t: Tid)
    requires LocksOwned(s) && Furthest(s, t) && TxnInv(s, t)
    ensures s.txns[t].stage == EnsureBalance || s.txns[t].stage == LockBalance ==>
              Free(s.balanceLocks, s.txns[t].req.user, t)
  {
    var user := s.txns[t].req.user;
    assert user in s.balanceLocks ==> BalanceHolder(s, s.balanceLocks[user], user);
    hide RowKnown, RewardKnown, BalanceKnown, EntryKnown, AmountKnown;
  }

  lemma FurthestHasKey(s: State, t: Tid)
    requires LocksOwned(s) && Furthest(s, t) && s.txns[t].stage == InsertRedemption && s.txns[t].req.Redeem?
    ensures s.txns[t].req.key !in s.keyLocks
  {
    var key := s.txns[t].req.key;
    assert key in s.keyLocks ==> KeyHolder(s, s.keyLocks[key], key);
  }

  /**
   Locks are taken in the order reward, balance, key, so a transaction that has
   come furthest never waits: whoever held what it wants would be further on.
   */
  lemma FurthestIsEnabled(s: State, t: Tid)
    requires Inv(s) && Furthest(s, t)
    ensures Enabled(s, t) && Shaped(s.txns[t])
  {
    TxnInvOf(s, t);
    FurthestHasBalance(s, t);
    assert Shaped(s.txns[t]);
    if s.txns[t].stage == LockReward {
      FurthestHasReward(s, t);
    } else if s.txns[t].stage == InsertRedemption {
      FurthestHasKey(s, t);
    }
    hide Inv, TxnInv;
  }

  function LiveTxns(s: State): set<Tid> {
    set t | t in s.txns && !s.txns[t].stage.Finished?
  }

  lemma {:induction false} FurthestExists(s: State, among: set<Tid>) returns (t: Tid)
    requires among != {} && forall u :: u in among ==> Live(s, u)
    ensures t in among && Live(s, t)
    ensures forall u :: u in among ==> Live(s, u) && Rank(s.txns[u].stage) <= Rank(s.txns[t].stage)
    decreases among
  {
    t :| t in among;
    if among != {t} {
      var best := FurthestExists(s, among - {t});
      if Rank(s.txns[t].stage) < Rank(s.txns[best].stage) {
        t := best;
      }
    }
  }

  /** t's next statement can run now, and brings it further. */
  predicate CanMove(s: State, t: Tid) {
    Enabled(s, t) && Shaped(s.txns[t]) && t in Step(s, t).txns && Rank(s.txns[t].stage) < Rank(Step(s, t).txns[t].stage)
  }

  /** A state with unfinished transactions always has one that can step. */
  lemma NeverStuck(start: Db, nextId: nat, actions: seq<Action>)
    requires Startable(start, nextId)
    requires LiveTxns(Run(Initial(start, nextId), actions)) != {}
    ensures var s := Run(Initial(start, nextId), actions);
            exists t :: t in LiveTxns(s) && CanMove(s, t)
  {
    RunIsGood(start, nextId, actions);
    var s := Run(Initial(start, nextId), actions);
    var t := FurthestExists(s, LiveTxns(s));
    FurthestIsEnabled(s, t);
    StepAdvances(s, t);
  }

  /** A step moves its own transaction forward and no other. */
  predicate Advances(s: State, s': State, t: Tid)
    requires t in s.txns
  {
    && t in s'.txns
    && s'.txns == s.txns[t := s'.txns[t]]
    && Rank(s.txns[t].stage) < Rank(s'.txns[t].stage) <= 9
  }

  lemma EffectMovesOn(s: State, txn: Txn)
    requires Shaped(txn) && Rank(txn.stage) < 8
    ensures EffectOf(s, txn).Go? ==> Rank(txn.stage) < Rank(EffectOf(s, txn).txn.stage) < 9
  {
  }

  lemma StepAdvances(s: State, t: Tid)
    requires Live(s, t) && Shaped(s.txns[t])
    ensures Advances(s, Step(s, t), t)
  {
    if s.txns[t].stage != Commit {
      EffectMovesOn(s, s.txns[t]);
    }
  }

  lemma {:induction false} RunJoin(s: State, first: seq<Action>, second: seq<Action>)
    ensures Run(s, first + second) == Run(Run(s, first), second)
  {
    hide Apply;
    if second == [] {
      assert first + second == first;
    } else {
      var n := |first + second|;
      assert (first + second)[..n - 1] == first + second[..|second| - 1];
      RunJoin(s, first, second[..|second| - 1]);
    }
  }

  ghost predicate OnlyAdvances(actions: seq<Action>) {
    forall a :: a in actions ==> a.Advance?
  }

  lemma StepIsRun(s: State, t: Tid)
    requires Enabled(s, t) && Shaped(s.txns[t])
    ensures Run(s, [Advance(t)]) == Step(s, t)
  {
    assert [Advance(t)][..0] == [];
  }

  /** Its own step leaves the furthest transaction furthest, or finished. */
  lemma StepKeepsFurthest(s: State, t: Tid)
    requires Furthest(s, t) && Shaped(s.txns[t])
    ensures var s' := Step(s, t);
            if Live(s', t) then Furthest(s', t) && LiveTxns(s') == LiveTxns(s) else LiveTxns(s') == LiveTxns(s) - {t}
  {
    StepAdvances(s, t);
    var s' := Step(s, t);
    assert forall u :: u != t ==> (Live(s', u) <==> Live(s, u));
  }

  /** Left to run, the furthest transaction finishes without waiting for anyone. */
  lemma {:induction false} FurthestFinishes(s: State, t: Tid) returns (schedule: seq<Action>)
    requires Inv(s) && Furthest(s, t)
    ensures OnlyAdvances(schedule)
    ensures Inv(Run(s, schedule))
    ensures LiveTxns(Run(s, schedule)) == LiveTxns(s) - {t}
    decreases 9 - Rank(s.txns[t].stage)
  {
    hide Inv, Step, Run, LiveTxns, Enabled, Shaped, Rank;
    FurthestIsEnabled(s, t);
    StepKeepsInv(s, t);
    StepAdvances(s, t);
    StepKeepsFurthest(s, t);
    StepIsRun(s, t);
    schedule := [Advance(t)];
    if Live(Step(s, t), t) {
      var rest := FurthestFinishes(Step(s, t), t);
      RunJoin(s, schedule, rest);
      schedule := schedule + rest;
    }
  }

  /** From every reachable state all transactions can finish, without losing any of them. */
  lemma {:induction false} AllCanFinish(s: State) returns (schedule: seq<Action>)
    requires Inv(s)
    ensures OnlyAdvances(schedule)
    ensures LiveTxns(Run(s, schedule)) == {}
    decreases LiveTxns(s)
  {
    if LiveTxns(s) == {} {
      schedule := [];
    } else {
      var t := FurthestExists(s, LiveTxns(s));
      forall u | Live(s, u)
        ensures Rank(s.txns[u].stage) <= Rank(s.txns[t].stage)
      {
        assert u in LiveTxns(s);
      }
      var first := FurthestFinishes(s, t);
      var rest := AllCanFinish(Run(s, first));
      schedule := first + rest;
      RunJoin(s, first, rest);
    }
  }
}
