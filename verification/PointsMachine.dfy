/**
 recordPointTransaction and redeemReward as interleaved database transactions.

 Each transaction is a program counter and a private workspace; a step is one
 statement of the source. What a transaction writes stays in its workspace until
 COMMIT, a `FOR UPDATE` or a conflicting unique insert waits for the lock holder,
 and a transaction may be lost (rolled back) between any two statements.

 Main results: the committed tables are always those of the serial execution of
 the committed requests (`RunIsSerial`), so they are sound after every run
 (`RunIsSound`); no reachable state is stuck (`FurthestIsEnabled`, `AllCanFinish`).
 */
module PointsMachine {
  import opened Options
  import opened PointsDatabase

  type Tid = nat

  /** The next statement a transaction will run. */
  datatype Stage =
    | Start             // argument checks, BEGIN
    | CheckKey          // SELECT ... FROM redemptions WHERE idempotency_key = $1
    | LockReward        // SELECT ... FROM rewards WHERE id = $1 FOR UPDATE, and its checks
    | EnsureBalance     // INSERT INTO user_balance ... ON CONFLICT DO NOTHING
    | LockBalance       // SELECT balance ... FOR UPDATE, and the balance check
    | DecrementStock    // UPDATE rewards SET stock = stock - 1
    | InsertLedger      // INSERT INTO point_transactions (the trigger updates user_balance)
    | InsertRedemption  // INSERT INTO redemptions
    | Commit
    | Finished(outcome: Outcome)

  /** Workspace: what the transaction has read, and what it will make visible when it commits. */
  datatype Txn = Txn(
    req: Request,
    stage: Stage,
    amount: int,
    before: int,
    createdBalance: bool,
    tookStock: bool,
    row: Option<LedgerRow>,
    redemption: Option<Redemption>)

  datatype State = State(
    db: Db,
    nextId: nat,
    txns: map<Tid, Txn>,
    rewardLocks: map<int, Tid>,
    balanceLocks: map<int, Tid>,
    keyLocks: map<string, Tid>,
    log: seq<Entry>)

  datatype Action = Begin(t: Tid, req: Request) | Advance(t: Tid) | Lose(t: Tid)

  function Rank(stage: Stage): nat {
    match stage
    case Start => 0
    case CheckKey => 1
    case LockReward => 2
    case EnsureBalance => 3
    case LockBalance => 4
    case DecrementStock => 5
    case InsertLedger => 6
    case InsertRedemption => 7
    case Commit => 8
    case Finished(_) => 9
  }

  predicate Live(s: State, t: Tid) {
    t in s.txns && !s.txns[t].stage.Finished?
  }

  // ---------------------------------------------------------------- steps

  /** A lock is available when nobody holds it, or the asker does. */
  predicate Free<K(==)>(locks: map<K, Tid>, k: K, t: Tid) {
    k in locks ==> locks[k] == t
  }

  /** Whether the next statement can run now, or must wait for a lock. */
  predicate Enabled(s: State, t: Tid) {
    Live(s, t) &&
    var txn := s.txns[t];
    match txn.stage
    case LockReward => txn.req.Redeem? && (txn.req.reward in s.db.rewards ==> Free(s.rewardLocks, txn.req.reward, t))
    case EnsureBalance => txn.req.user in s.db.balances || Free(s.balanceLocks, txn.req.user, t)
    case LockBalance => Free(s.balanceLocks, txn.req.user, t)
    case InsertRedemption => txn.req.Redeem? && Free(s.keyLocks, txn.req.key, t)
    case _ => true
  }

  function Unlock<K>(locks: map<K, Tid>, t: Tid): map<K, Tid> {
    locks - (set k | k in locks && locks[k] == t)
  }

  /** COMMIT or ROLLBACK: the transaction lets go of its locks. */
  function Finish(s: State, t: Tid, outcome: Outcome): State
    requires t in s.txns
  {
    s.(txns := s.txns[t := s.txns[t].(stage := Finished(outcome))],
       rewardLocks := Unlock(s.rewardLocks, t),
       balanceLocks := Unlock(s.balanceLocks, t),
       keyLocks := Unlock(s.keyLocks, t))
  }

  /**
   What a statement before COMMIT does: it ends the transaction with an answer
   (a throw, so ROLLBACK, or the read-only COMMIT of a replay), or goes on with a
   new workspace, the locks it takes, and an id if it draws one from the sequence.
   */
  datatype Effect =
    | End(outcome: Outcome, drawsId: bool)
    | Go(txn: Txn, locksReward: bool, locksBalance: bool, locksKey: bool, drawsId: bool)

  function Stop(reason: Reason): Effect {
    End(Refused(reason), false)
  }

  function Next(txn: Txn): Effect {
    Go(txn, false, false, false, false)
  }

  function DoStart(txn: Txn): Effect {
    match txn.req
    case Redeem(_, _, _, _) => Next(txn.(stage := CheckKey))
    case Record(_, _, amount) =>
      match ValidAmount(amount)
      case None => Stop(InvalidAmount)
      case Some(n) => Next(txn.(stage := EnsureBalance, amount := n))
  }

  function DoCheckKey(db: Db, txn: Txn): Effect
    requires txn.req.Redeem?
  {
    match FindKey(db.redemptions, txn.req.key)
    case Some(found) => End(Replayed(found, FindAfter(db.ledger, found.txId)), false)
    case None => Next(txn.(stage := LockReward))
  }

  function DoLockReward(db: Db, txn: Txn): Effect
    requires txn.req.Redeem?
  {
    var id := txn.req.reward;
    if id !in db.rewards || db.rewards[id].deleted then Stop(RewardNotFound)
    else if !db.rewards[id].active then Stop(RewardInactive)
    else if db.rewards[id].stock <= 0 then Stop(OutOfStock)
    else Go(txn.(stage := EnsureBalance, amount := Round(db.rewards[id].cost)), true, false, false, false)
  }

  /** A new row is invisible to others until commit, but they already wait for its key. */
  function DoEnsureBalance(db: Db, txn: Txn): Effect {
    if txn.req.user in db.balances then Next(txn.(stage := LockBalance))
    else if txn.req.user !in db.users then Stop(UnknownUser)
    else Go(txn.(stage := LockBalance, createdBalance := true), false, true, false, false)
  }

  function DoLockBalance(db: Db, txn: Txn): Effect {
    var before := BalanceOf(db, txn.req.user);
    var delta := if txn.req.Record? then Signed(txn.req.kind, txn.amount) else -txn.amount;
    if before + delta < 0 then Stop(InsufficientPoints)
    else
      var stage := if txn.req.Record? then InsertLedger else DecrementStock;
      Go(txn.(stage := stage, before := before), false, true, false, false)
  }

  function NewRow(txn: Txn, id: nat): LedgerRow {
    var kind := if txn.req.Record? then txn.req.kind else Redeemed;
    LedgerRow(id, txn.req.user, kind, txn.amount, txn.before, txn.before + Signed(kind, txn.amount))
  }

  /** The sequence behind the id moves on even when the insert is refused. */
  function DoInsertLedger(txn: Txn, nextId: nat): Effect {
    var row := NewRow(txn, nextId);
    if !RowAccepted(row) then End(Refused(ConstraintViolated), true)
    else
      var stage := if txn.req.Record? then Commit else InsertRedemption;
      Go(txn.(stage := stage, row := Some(row)), false, false, false, true)
  }

  function DoInsertRedemption(db: Db, txn: Txn): Effect
    requires txn.req.Redeem? && txn.row.Some?
  {
    if FindKey(db.redemptions, txn.req.key).Some? then Stop(KeyTaken)
    else
      var entry := Redemption(txn.req.user, txn.req.reward, txn.req.campaign, txn.amount, txn.req.key,
                              txn.row.value.id);
      Go(txn.(stage := Commit, redemption := Some(entry)), false, false, true, false)
  }

  /** Program points a transaction of its kind can be at, with what it must have by then. */
  predicate Shaped(txn: Txn) {
    match txn.stage
    case CheckKey => txn.req.Redeem?
    case LockReward => txn.req.Redeem?
    case DecrementStock => txn.req.Redeem?
    case InsertRedemption => txn.req.Redeem? && txn.row.Some?
    case Commit => txn.row.Some? && (txn.req.Redeem? <==> txn.redemption.Some?)
    case _ => true
  }

  /** The effect of the next statement of a transaction that is not at COMMIT. */
  function EffectOf(s: State, txn: Txn): Effect
    requires Shaped(txn) && Rank(txn.stage) < 8
  {
    match txn.stage
    case Start => DoStart(txn)
    case CheckKey => DoCheckKey(s.db, txn)
    case LockReward => DoLockReward(s.db, txn)
    case EnsureBalance => DoEnsureBalance(s.db, txn)
    case LockBalance => DoLockBalance(s.db, txn)
    case DecrementStock => Next(txn.(stage := InsertLedger, tookStock := true))
    case InsertLedger => DoInsertLedger(txn, s.nextId)
    case InsertRedemption => DoInsertRedemption(s.db, txn)
  }

  function Take<K>(locks: map<K, Tid>, taken: bool, k: K, t: Tid): map<K, Tid> {
    if taken then locks[k := t] else locks
  }

  function Perform(s: State, t: Tid, e: Effect): State
    requires t in s.txns
  {
    match e
    case End(outcome, drawsId) => Finish(s, t, outcome).(nextId := s.nextId + if drawsId then 1 else 0)
    case Go(txn, locksReward, locksBalance, locksKey, drawsId) =>
      s.(txns := s.txns[t := txn],
         rewardLocks := if txn.req.Redeem? then Take(s.rewardLocks, locksReward, txn.req.reward, t) else s.rewardLocks,
         balanceLocks := Take(s.balanceLocks, locksBalance, txn.req.user, t),
         keyLocks := if txn.req.Redeem? then Take(s.keyLocks, locksKey, txn.req.key, t) else s.keyLocks,
         nextId := s.nextId + if drawsId then 1 else 0)
  }

  /** The tables with the workspace's writes in them. */
  function Visible(db: Db, txn: Txn): Db {
    var taken := txn.tookStock && txn.req.Redeem? && txn.req.reward in db.rewards;
    var db1 := if taken then TakeStock(db, txn.req.reward) else db;
    var db2 := if txn.row.Some? then Post(db1, txn.row.value) else db1;
    if txn.redemption.Some? then AddRedemption(db2, txn.redemption.value) else db2
  }

  function CommitOutcome(txn: Txn): Outcome
    requires txn.row.Some?
  {
    if txn.redemption.Some? then Fresh(txn.redemption.value, txn.row.value) else Recorded(txn.row.value)
  }

  function StepCommit(s: State, t: Tid): State
    requires t in s.txns && s.txns[t].row.Some?
  {
    var txn := s.txns[t];
    Finish(s, t, CommitOutcome(txn)).(db := Visible(s.db, txn), log := s.log + [Entry(txn.req, txn.row.value.id)])
  }

  function Step(s: State, t: Tid): State
    requires Live(s, t) && Shaped(s.txns[t])
  {
    if s.txns[t].stage == Commit then StepCommit(s, t) else Perform(s, t, EffectOf(s, s.txns[t]))
  }

  function NewTxn(req: Request): Txn {
    Txn(req, Start, 0, 0, false, false, None, None)
  }

  /** One action of the scheduler; an action that is not possible changes nothing. */
  function Apply(s: State, a: Action): State {
    match a
    case Begin(t, req) => if t in s.txns then s else s.(txns := s.txns[t := NewTxn(req)])
    case Advance(t) => if Enabled(s, t) && Shaped(s.txns[t]) then Step(s, t) else s
    case Lose(t) => if Live(s, t) then Finish(s, t, Refused(ConnectionLost)) else s
  }

  function Run(s: State, actions: seq<Action>): State {
    if actions == [] then s
    else Apply(Run(s, actions[..|actions| - 1]), actions[|actions| - 1])
  }

  function Initial(db: Db, nextId: nat): State {
    State(db, nextId, map[], map[], map[], map[], [])
  }

  // ---------------------------------------------------------------- invariant

  predicate Holds<K(==)>(locks: map<K, Tid>, k: K, t: Tid) {
    k in locks && locks[k] == t
  }

  /** What a redemption past LockReward knows about the reward, and keeps others from changing. */
  predicate RewardKnown(db: Db, txn: Txn) {
    txn.req.Redeem? && txn.req.reward in db.rewards &&
    var r := db.rewards[txn.req.reward];
    !r.deleted && r.active && r.stock > 0 && txn.amount == Round(r.cost)
  }

  /** What a transaction past LockBalance knows about the balance. */
  predicate BalanceKnown(db: Db, txn: Txn) {
    && txn.before == BalanceOf(db, txn.req.user)
    && NewRow(txn, 0).after >= 0
    && (txn.req.user in db.balances || txn.req.user in db.users)
  }

  /** The transaction's ledger row: built from what it read, and newer than the user's committed rows. */
  predicate RowKnown(s: State, txn: Txn) {
    && txn.row.Some?
    && txn.row.value == NewRow(txn, txn.row.value.id)
    && RowAccepted(txn.row.value)
    && txn.row.value.id < s.nextId
    && (forall row :: row in s.db.ledger ==> row.id != txn.row.value.id)
    && (forall row :: row in s.db.ledger && row.user == txn.req.user ==> row.id < txn.row.value.id)
  }

  predicate AmountKnown(txn: Txn) {
    txn.req.Record? ==> ValidAmount(txn.req.amount) == Some(txn.amount)
  }

  predicate EntryKnown(db: Db, txn: Txn) {
    txn.req.Redeem? ==>
      && txn.redemption.Some? && txn.row.Some?
      && txn.redemption.value ==
           Redemption(txn.req.user, txn.req.reward, txn.req.campaign, txn.amount, txn.req.key, txn.row.value.id)
      && FindKey(db.redemptions, txn.req.key).None?
  }

  /** What each stage has established, about the committed tables and about the locks. */
  predicate TxnInv(s: State, t: Tid)
    requires t in s.txns
  {
    var txn := s.txns[t];
    var rank := Rank(txn.stage);
    && Shaped(txn)
    && (3 <= rank < 9 ==> AmountKnown(txn))
    && (3 <= rank < 9 && txn.req.Redeem? ==> RewardKnown(s.db, txn) && Holds(s.rewardLocks, txn.req.reward, t))
    && (rank == 4 ==>
          || txn.req.user in s.db.balances
          || (Holds(s.balanceLocks, txn.req.user, t) && txn.req.user in s.db.users))
    && (5 <= rank < 9 ==> BalanceKnown(s.db, txn) && Holds(s.balanceLocks, txn.req.user, t))
    && (rank < 9 ==> (txn.tookStock <==> txn.req.Redeem? && 6 <= rank))
    && (rank < 9 ==> (txn.row.Some? <==> 7 <= rank))
    && (7 <= rank < 9 ==> RowKnown(s, txn))
    && (rank < 9 ==> (txn.redemption.Some? <==> txn.req.Redeem? && rank == 8))
    && (rank == 8 ==> EntryKnown(s.db, txn))
    && (rank == 8 && txn.req.Redeem? ==> Holds(s.keyLocks, txn.req.key, t))
  }

  /** Every lock has a live holder that asked for it and has passed the statement that takes it. */
  predicate LocksOwned(s: State) {
    && (forall r :: r in s.rewardLocks ==> RewardHolder(s, s.rewardLocks[r], r))
    && (forall u :: u in s.balanceLocks ==> BalanceHolder(s, s.balanceLocks[u], u))
    && (forall k :: k in s.keyLocks ==> KeyHolder(s, s.keyLocks[k], k))
  }

  predicate RewardHolder(s: State, t: Tid, reward: int) {
    Live(s, t) && s.txns[t].req.Redeem? && s.txns[t].req.reward == reward && 3 <= Rank(s.txns[t].stage)
  }

  predicate BalanceHolder(s: State, t: Tid, user: int) {
    Live(s, t) && s.txns[t].req.user == user &&
    (5 <= Rank(s.txns[t].stage) || (Rank(s.txns[t].stage) == 4 && user !in s.db.balances))
  }

  predicate KeyHolder(s: State, t: Tid, key: string) {
    Live(s, t) && s.txns[t].req.Redeem? && s.txns[t].req.key == key && s.txns[t].stage == Commit
  }

  /** Ids of rows in flight differ from each other and lie below the sequence. */
  ghost predicate IdsDistinct(s: State) {
    && (forall row :: row in s.db.ledger ==> row.id < s.nextId)
    && (forall t1, t2 :: t1 != t2 && Live(s, t1) && Live(s, t2) && s.txns[t1].row.Some? && s.txns[t2].row.Some? ==>
          s.txns[t1].row.value.id != s.txns[t2].row.value.id)
  }

  ghost predicate Inv(s: State) {
    && (forall t :: t in s.txns ==> TxnInv(s, t))
    && LocksOwned(s)
    && IdsDistinct(s)
  }

  // ---------------------------------------------------------------- preservation

  /** A step of t that leaves the tables alone and only gives or keeps locks keeps what others know. */
  predicate SameForOthers(s: State, s': State, t: Tid) {
    && s'.db == s.db && s'.nextId >= s.nextId
    && s'.txns.Keys == s.txns.Keys + {t}
    && (forall u :: u in s.txns && u != t ==> s'.txns[u] == s.txns[u])
    && LocksKept(s.rewardLocks, s'.rewardLocks, t)
    && LocksKept(s.balanceLocks, s'.balanceLocks, t)
    && LocksKept(s.keyLocks, s'.keyLocks, t)
  }

  predicate LocksKept<K(!new)>(locks: map<K, Tid>, locks': map<K, Tid>, t: Tid) {
    && (forall k :: k in locks && locks[k] != t ==> k in locks' && locks'[k] == locks[k])
    && (forall k :: k in locks' && locks'[k] != t ==> k in locks && locks[k] == locks'[k])
  }

  lemma OtherKeepsTxn(s: State, s': State, t: Tid, u: Tid)
    requires u in s.txns && u != t && TxnInv(s, u) && SameForOthers(s, s', t)
    ensures TxnInv(s', u)
  {
  }

  /** t holds no lock but those its request and its progress account for. */
  predicate OwnLocks(s: State, t: Tid) {
    && (forall r :: r in s.rewardLocks && s.rewardLocks[r] == t ==> RewardHolder(s, t, r))
    && (forall u :: u in s.balanceLocks && s.balanceLocks[u] == t ==> BalanceHolder(s, t, u))
    && (forall k :: k in s.keyLocks && s.keyLocks[k] == t ==> KeyHolder(s, t, k))
  }

  predicate OwnRow(s: State, s': State, t: Tid) {
    Live(s', t) && s'.txns[t].row.Some? ==>
      || (Live(s, t) && s.txns[t].row == s'.txns[t].row)
      || s'.txns[t].row.value.id == s.nextId < s'.nextId
  }

  /** What t itself must show after a step that leaves the tables alone. */
  predicate OwnPart(s: State, s': State, t: Tid)
    requires t in s'.txns
  {
    TxnInv(s', t) && OwnLocks(s', t) && OwnRow(s, s', t)
  }

  lemma OthersKeepLocks(s: State, s': State, t: Tid)
    requires LocksOwned(s) && SameForOthers(s, s', t) && OwnPart(s, s', t)
    ensures LocksOwned(s')
  {
    forall r | r in s'.rewardLocks
      ensures RewardHolder(s', s'.rewardLocks[r], r)
    {
      if s'.rewardLocks[r] != t {
        assert RewardHolder(s, s.rewardLocks[r], r);
      }
    }
    forall u | u in s'.balanceLocks
      ensures BalanceHolder(s', s'.balanceLocks[u], u)
    {
      if s'.balanceLocks[u] != t {
        assert BalanceHolder(s, s.balanceLocks[u], u);
      }
    }
    forall k | k in s'.keyLocks
      ensures KeyHolder(s', s'.keyLocks[k], k)
    {
      if s'.keyLocks[k] != t {
        assert KeyHolder(s, s.keyLocks[k], k);
      }
    }
  }

  lemma OthersKeepIds(s: State, s': State, t: Tid)
    requires IdsDistinct(s) && SameForOthers(s, s', t) && OwnPart(s, s', t)
    requires forall u :: u in s.txns ==> TxnInv(s, u)
    ensures IdsDistinct(s')
  {
    forall t1, t2 | t1 != t2 && Live(s', t1) && Live(s', t2) && s'.txns[t1].row.Some? && s'.txns[t2].row.Some?
      ensures s'.txns[t1].row.value.id != s'.txns[t2].row.value.id
    {
      if t1 != t {
        assert TxnInv(s, t1);
      }
      if t2 != t {
        assert TxnInv(s, t2);
      }
    }
  }

  lemma OthersKeepInv(s: State, s': State, t: Tid)
    requires Inv(s) && SameForOthers(s, s', t) && OwnPart(s, s', t)
    ensures Inv(s')
  {
    forall u | u in s'.txns
      ensures TxnInv(s', u)
    {
      if u != t {
        OtherKeepsTxn(s, s', t, u);
      }
    }
    OthersKeepLocks(s, s', t);
    OthersKeepIds(s, s', t);
  }

  /** An effect that only moves the transaction on, and takes only locks that are free and due. */
  predicate Proper(s: State, t: Tid, e: Effect)
    requires t in s.txns
  {
    var txn := s.txns[t];
    match e
    case End(_, _) => true
    case Go(txn', locksReward, locksBalance, locksKey, drawsId) =>
      && txn'.req == txn.req
      && Rank(txn.stage) < Rank(txn'.stage) < 9
      && (locksReward ==> txn.req.Redeem? && Free(s.rewardLocks, txn.req.reward, t) && 3 <= Rank(txn'.stage))
      && (locksBalance ==> Free(s.balanceLocks, txn.req.user, t))
      && (locksBalance ==> 5 <= Rank(txn'.stage) || txn.req.user !in s.db.balances)
      && (locksBalance ==> 4 <= Rank(txn'.stage))
      && (locksKey ==> txn.req.Redeem? && Free(s.keyLocks, txn.req.key, t) && txn'.stage == Commit)
      && (txn'.row == txn.row || (drawsId && txn'.row.Some? && txn'.row.value.id == s.nextId))
  }

  lemma ProperKeepsOthers(s: State, t: Tid, e: Effect)
    requires Live(s, t) && Proper(s, t, e)
    ensures SameForOthers(s, Perform(s, t, e), t)
  {
  }

  lemma ProperKeepsOwnLocks(s: State, t: Tid, e: Effect)
    requires Live(s, t) && OwnLocks(s, t) && Proper(s, t, e)
    ensures OwnLocks(Perform(s, t, e), t)
  {
  }

  lemma ProperKeepsInv(s: State, t: Tid, e: Effect)
    requires Inv(s) && Live(s, t) && Proper(s, t, e)
    requires e.Go? ==> TxnInv(Perform(s, t, e), t)
    ensures Inv(Perform(s, t, e))
  {
    assert OwnLocks(s, t);
    ProperKeepsOthers(s, t, e);
    ProperKeepsOwnLocks(s, t, e);
    OthersKeepInv(s, Perform(s, t, e), t);
  }

  lemma EffectIsProper(s: State, t: Tid)
    requires Enabled(s, t) && TxnInv(s, t) && s.txns[t].stage != Commit
    ensures Proper(s, t, EffectOf(s, s.txns[t]))
  {
  }

  // What each statement establishes for its own transaction.

  lemma ReadingEffectsKeepTxn(s: State, t: Tid)
    requires Enabled(s, t) && TxnInv(s, t) && Rank(s.txns[t].stage) <= 3
    requires EffectOf(s, s.txns[t]).Go?
    ensures TxnInv(Perform(s, t, EffectOf(s, s.txns[t])), t)
  {
  }

  lemma LockBalanceKeepsTxn(s: State, t: Tid)
    requires Enabled(s, t) && TxnInv(s, t) && s.txns[t].stage == LockBalance
    requires EffectOf(s, s.txns[t]).Go?
    ensures TxnInv(Perform(s, t, EffectOf(s, s.txns[t])), t)
  {
    var txn' := EffectOf(s, s.txns[t]).txn;
    assert BalanceKnown(s.db, txn');
  }

  lemma InsertLedgerKeepsTxn(s: State, t: Tid)
    requires Enabled(s, t) && TxnInv(s, t) && s.txns[t].stage == InsertLedger
    requires forall row :: row in s.db.ledger ==> row.id < s.nextId
    requires EffectOf(s, s.txns[t]).Go?
    ensures TxnInv(Perform(s, t, EffectOf(s, s.txns[t])), t)
  {
    var e := EffectOf(s, s.txns[t]);
    assert RowKnown(Perform(s, t, e), e.txn);
  }

  lemma RedeemEffectsKeepTxn(s: State, t: Tid)
    requires Enabled(s, t) && TxnInv(s, t)
    requires s.txns[t].stage == DecrementStock || s.txns[t].stage == InsertRedemption
    requires EffectOf(s, s.txns[t]).Go?
    ensures TxnInv(Perform(s, t, EffectOf(s, s.txns[t])), t)
  {
  }

  lemma PerformKeepsInv(s: State, t: Tid)
    requires Inv(s) && Enabled(s, t) && Shaped(s.txns[t]) && s.txns[t].stage != Commit
    ensures Inv(Step(s, t))
  {
    assert TxnInv(s, t);
    EffectIsProper(s, t);
    var e := EffectOf(s, s.txns[t]);
    if e.Go? {
      var rank := Rank(s.txns[t].stage);
      if rank <= 3 {
        ReadingEffectsKeepTxn(s, t);
      } else if rank == 4 {
        LockBalanceKeepsTxn(s, t);
      } else if rank == 6 {
        InsertLedgerKeepsTxn(s, t);
      } else {
        RedeemEffectsKeepTxn(s, t);
      }
    }
    ProperKeepsInv(s, t, e);
  }

  lemma BeginKeepsInv(s: State, t: Tid, req: Request)
    requires Inv(s) && t !in s.txns
    ensures Inv(s.(txns := s.txns[t := NewTxn(req)]))
  {
    NobodyHoldsNothing(s, t);
    BegunIsProper(s, t, req);
    hide Inv, SameForOthers, OwnPart;
    OthersKeepInv(s, s.(txns := s.txns[t := NewTxn(req)]), t);
  }

  /** A transaction that is not there holds no lock. */
  lemma NobodyHoldsNothing(s: State, t: Tid)
    requires LocksOwned(s) && t !in s.txns
    ensures OwnLocks(s, t)
  {
    assert forall r :: r in s.rewardLocks ==> RewardHolder(s, s.rewardLocks[r], r);
    assert forall u :: u in s.balanceLocks ==> BalanceHolder(s, s.balanceLocks[u], u);
    assert forall k :: k in s.keyLocks ==> KeyHolder(s, s.keyLocks[k], k);
  }

  lemma BegunIsProper(s: State, t: Tid, req: Request)
    requires t !in s.txns && OwnLocks(s, t)
    ensures var s' := s.(txns := s.txns[t := NewTxn(req)]); SameForOthers(s, s', t) && OwnPart(s, s', t)
  {
    var s' := s.(txns := s.txns[t := NewTxn(req)]);
    assert TxnInv(s', t) && OwnRow(s, s', t);
    assert OwnLocks(s', t) by {
      assert forall r :: r in s.rewardLocks && s.rewardLocks[r] == t ==> RewardHolder(s, t, r);
      assert forall u :: u in s.balanceLocks && s.balanceLocks[u] == t ==> BalanceHolder(s, t, u);
      assert forall k :: k in s.keyLocks && s.keyLocks[k] == t ==> KeyHolder(s, t, k);
    }
  }

  lemma TxnInvOf(s: State, t: Tid)
    requires Inv(s) && t in s.txns
    ensures TxnInv(s, t)
  {
    hide LocksOwned, IdsDistinct;
  }

  lemma LoseKeepsInv(s: State, t: Tid, reason: Reason)
    requires Inv(s) && Live(s, t)
    ensures Inv(Finish(s, t, Refused(reason)))
  {
    ProperKeepsInv(s, t, Stop(reason));
    assert Perform(s, t, Stop(reason)) == Finish(s, t, Refused(reason));
  }
}
