/**
 Requests and rows. Why a request is refused, condition by condition, and, over every run, whose
 request each row of the tables is: nothing is posted, redeemed or changed that was not asked for.
 */
module PointsRequests {
  import opened Options
  import opened PointsDatabase
  import opened PointsMachine
  import opened PointsRuns

  // ---------------------------------------------------------------- why a request is refused

  /** An amount of at least half a point, or a debit of more than half a point. */
  predicate CountsForSomething(amount: Option<real>) {
    amount.Some? && (amount.value >= 0.5 || amount.value < -0.5)
  }

  predicate Known(db: Db, user: int) {
    user in db.users || user in db.balances
  }

  /** The balance that n points of this kind would leave. */
  function Leaves(balance: int, kind: Kind, n: int): int {
    match kind
    case Earned => balance + n
    case Redeemed => balance - n
    case Expired => balance - n
    case Bonus => balance + n
    case Referral => balance + n
    case Unlisted => balance + n
  }

  /** What an INTEGER column holds. */
  predicate InInteger(n: int) {
    -2147483648 <= n <= 2147483647
  }

  /** Why recordPointTransaction refuses: each reason exactly when the ones before it do not apply. */
  lemma RecordIsRefusedIff(db: Db, user: int, kind: Kind, amount: Option<real>, id: nat)
    ensures var outcome := Execute(db, Record(user, kind, amount), id).1;
            var n := if amount.Some? then Round(amount.value) else 0;
            var balance := Leaves(BalanceOf(db, user), kind, n);
            && (outcome == Refused(InvalidAmount) <==> !CountsForSomething(amount))
            && (outcome == Refused(UnknownUser) <==> CountsForSomething(amount) && !Known(db, user))
            && (outcome == Refused(InsufficientPoints) <==>
                  CountsForSomething(amount) && Known(db, user) && balance < 0)
            && (outcome == Refused(ConstraintViolated) <==>
                  && CountsForSomething(amount) && Known(db, user) && balance >= 0
                  && !(kind != Unlisted && InInteger(n) && InInteger(balance)))
            && (outcome.Recorded? <==>
                  && CountsForSomething(amount) && Known(db, user) && balance >= 0
                  && kind != Unlisted && InInteger(n) && InInteger(balance))
  {
    if amount.Some? {
      RoundIsNearest(amount.value);
    }
    hide Round;
  }

  predicate KeyIsFree(db: Db, key: string) {
    forall r :: r in db.redemptions ==> r.key != key
  }

  predicate Offered(db: Db, reward: int) {
    reward in db.rewards && !db.rewards[reward].deleted
  }

  predicate Available(db: Db, reward: int, key: string) {
    KeyIsFree(db, key) && Offered(db, reward) && db.rewards[reward].active && db.rewards[reward].stock >= 1
  }

  lemma FreeIsNotFound(db: Db, key: string)
    ensures FindKey(db.redemptions, key).None? <==> KeyIsFree(db, key)
  {
  }

  /** Why redeemReward refuses a key that is new: the same. */
  lemma RedeemIsRefusedIff(db: Db, req: Request, id: nat)
    requires req.Redeem?
    ensures var outcome := Execute(db, req, id).1;
            var free := KeyIsFree(db, req.key);
            && (outcome.Replayed? <==> !free)
            && (outcome == Refused(RewardNotFound) <==> free && !Offered(db, req.reward))
            && (outcome == Refused(RewardInactive) <==>
                  free && Offered(db, req.reward) && !db.rewards[req.reward].active)
            && (outcome == Refused(OutOfStock) <==>
                  && free && Offered(db, req.reward) && db.rewards[req.reward].active
                  && db.rewards[req.reward].stock <= 0)
            && (Available(db, req.reward, req.key) <==>
                  outcome.Fresh? || outcome in {Refused(UnknownUser), Refused(InsufficientPoints),
                                                Refused(ConstraintViolated)})
  {
    FreeIsNotFound(db, req.key);
    hide FindKey, FindAfter, Round, RowAccepted, KeyIsFree;
  }

  /** And of a reward that is to be had. */
  lemma PurchaseIsRefusedIff(db: Db, req: Request, id: nat)
    requires req.Redeem? && Available(db, req.reward, req.key)
    ensures var outcome := Execute(db, req, id).1;
            var price := Round(db.rewards[req.reward].cost);
            var balance := BalanceOf(db, req.user);
            && (outcome == Refused(UnknownUser) <==> !Known(db, req.user))
            && (outcome == Refused(InsufficientPoints) <==> Known(db, req.user) && balance < price)
            && (outcome == Refused(ConstraintViolated) <==>
                  && Known(db, req.user) && balance >= price
                  && !(price != 0 && InInteger(price) && InInteger(balance - price)))
            && (outcome.Fresh? <==>
                  && Known(db, req.user) && balance >= price
                  && price != 0 && InInteger(price) && InInteger(balance - price))
  {
    FreeIsNotFound(db, req.key);
    hide FindKey, FindAfter, Round, KeyIsFree;
  }

  // ---------------------------------------------------------------- the serial

  /** Statement by statement, the ledger's serial moves on exactly when a row is inserted, refused by a CHECK or not. */
  lemma SerialMovesIff(s: State, a: Action)
    ensures Apply(s, a).nextId == s.nextId +
              if a.Advance? && Enabled(s, a.t) && Shaped(s.txns[a.t]) && s.txns[a.t].stage == InsertLedger
              then 1 else 0
  {
    hide Enabled, RowAccepted, Round, FindKey, FindAfter, Visible, Unlock;
  }

  // ---------------------------------------------------------------- lost transactions

  ghost predicate LetsGo<K(!new)>(locks: map<K, Tid>, locks': map<K, Tid>, t: Tid) {
    && (forall k :: k in locks' <==> k in locks && locks[k] != t)
    && (forall k :: k in locks' ==> locks'[k] == locks[k])
  }

  /** A transaction that is lost is refused, writes nothing, and lets go of its own locks and nobody else's. */
  lemma LostLetsGo(s: State, t: Tid)
    requires Live(s, t)
    ensures var s' := Apply(s, Lose(t));
            && s'.txns == s.txns[t := s.txns[t].(stage := Finished(Refused(ConnectionLost)))]
            && s'.db == s.db && s'.log == s.log && s'.nextId == s.nextId
            && LetsGo(s.rewardLocks, s'.rewardLocks, t)
            && LetsGo(s.balanceLocks, s'.balanceLocks, t)
            && LetsGo(s.keyLocks, s'.keyLocks, t)
  {
  }

  // ---------------------------------------------------------------- whose request a row is

  predicate Nearest(n: int, x: real) {
    n as real - 0.5 <= x < n as real + 0.5
  }

  predicate StorableRow(row: LedgerRow) {
    row.kind != Unlisted && row.amount != 0 && InInteger(row.amount) && 0 <= row.after <= 2147483647
  }

  /** The row is what the request asked to post. */
  predicate RowAskedBy(rewards: map<int, Reward>, row: LedgerRow, e: Entry) {
    && row.id == e.id && row.user == e.req.user && StorableRow(row)
    && match e.req
       case Record(_, kind, amount) => row.kind == kind && amount.Some? && Nearest(row.amount, amount.value)
       case Redeem(_, reward, _, _) =>
         row.kind == Redeemed && reward in rewards && Nearest(row.amount, rewards[reward].cost)
  }

  /** The redemption is what the request asked to redeem, at the reward's price. */
  predicate RedemptionAskedBy(rewards: map<int, Reward>, r: Redemption, e: Entry) {
    && e.req == Redeem(r.user, r.reward, r.campaign, r.key) && r.txId == e.id
    && r.reward in rewards && Nearest(r.points, rewards[r.reward].cost)
  }

  predicate SamePrices(rewards: map<int, Reward>, rewards': map<int, Reward>) {
    && rewards.Keys == rewards'.Keys
    && forall r :: r in rewards ==> rewards'[r] == rewards[r].(stock := rewards'[r].stock)
  }

  predicate AskedAt(rewards: map<int, Reward>, redemptions: seq<Redemption>, log: seq<Entry>, j: nat, k: nat) {
    j < |redemptions| && k < |log| && RedemptionAskedBy(rewards, redemptions[j], log[k])
  }

  ghost predicate RedemptionIsAsked(rewards: map<int, Reward>, redemptions: seq<Redemption>, log: seq<Entry>, j: nat) {
    exists k: nat :: AskedAt(rewards, redemptions, log, j, k)
  }

  ghost predicate RedeemIsThere(rewards: map<int, Reward>, redemptions: seq<Redemption>, log: seq<Entry>, k: nat) {
    exists j: nat :: AskedAt(rewards, redemptions, log, j, k)
  }

  /** The k-th committed request posted the k-th new row, and each new redemption is one of them, each Redeem's one. */
  ghost predicate Asked(start: Db, db: Db, log: seq<Entry>) {
    && start.ledger <= db.ledger && |db.ledger| == |start.ledger| + |log|
    && (forall k :: 0 <= k < |log| ==> RowAskedBy(start.rewards, db.ledger[|start.ledger| + k], log[k]))
    && start.redemptions <= db.redemptions
    && (forall j: nat :: |start.redemptions| <= j < |db.redemptions| ==>
          RedemptionIsAsked(start.rewards, db.redemptions, log, j))
    && (forall k: nat :: k < |log| && log[k].req.Redeem? ==> RedeemIsThere(start.rewards, db.redemptions, log, k))
    && SamePrices(start.rewards, db.rewards) && db.users == start.users
  }

  lemma PostedIsAsked(start: Db, db: Db, e: Entry)
    requires Posts(db, e.req, e.id) && SamePrices(start.rewards, db.rewards)
    ensures var (db', outcome) := Execute(db, e.req, e.id);
            && db'.ledger == db.ledger + [outcome.row] && RowAskedBy(start.rewards, outcome.row, e)
            && db'.users == db.users
            && (e.req.Record? ==> db'.redemptions == db.redemptions && db'.rewards == db.rewards)
  {
    if e.req.Record? && e.req.amount.Some? {
      RoundIsNearest(e.req.amount.value);
    }
    if e.req.Redeem? && e.req.reward in db.rewards {
      RoundIsNearest(db.rewards[e.req.reward].cost);
    }
    hide Round, FindKey, FindAfter;
  }

  lemma RedeemedIsAsked(start: Db, db: Db, e: Entry)
    requires Posts(db, e.req, e.id) && e.req.Redeem? && SamePrices(start.rewards, db.rewards)
    ensures var (db', outcome) := Execute(db, e.req, e.id);
            && outcome.Fresh? && db'.redemptions == db.redemptions + [outcome.redemption]
            && RedemptionAskedBy(start.rewards, outcome.redemption, e)
            && SamePrices(start.rewards, db'.rewards)
            && e.req.reward in db.rewards
            && db'.rewards == db.rewards[e.req.reward :=
                                           db.rewards[e.req.reward].(stock := db.rewards[e.req.reward].stock - 1)]
  {
    if e.req.reward in db.rewards {
      RoundIsNearest(db.rewards[e.req.reward].cost);
    }
    hide Round, FindKey, FindAfter, RowAccepted;
  }

  lemma AskedStays(rewards: map<int, Reward>, redemptions: seq<Redemption>, more: seq<Redemption>, log: seq<Entry>,
                   e: Entry, j: nat, k: nat)
    requires AskedAt(rewards, redemptions, log, j, k)
    ensures AskedAt(rewards, redemptions + more, log + [e], j, k)
  {
  }

  lemma OldStayAsked(start: Db, db: Db, db': Db, log: seq<Entry>, e: Entry, more: seq<Redemption>)
    requires Asked(start, db, log) && db'.redemptions == db.redemptions + more
    ensures forall j: nat :: |start.redemptions| <= j < |db.redemptions| ==>
              RedemptionIsAsked(start.rewards, db'.redemptions, log + [e], j)
    ensures forall k: nat :: k < |log| && log[k].req.Redeem? ==>
              RedeemIsThere(start.rewards, db'.redemptions, log + [e], k)
  {
    hide AskedAt, RowAskedBy;
    forall j: nat | |start.redemptions| <= j < |db.redemptions|
      ensures RedemptionIsAsked(start.rewards, db'.redemptions, log + [e], j)
    {
      assert RedemptionIsAsked(start.rewards, db.redemptions, log, j);
      var k: nat :| AskedAt(start.rewards, db.redemptions, log, j, k);
      AskedStays(start.rewards, db.redemptions, more, log, e, j, k);
    }
    forall k: nat | k < |log| && log[k].req.Redeem?
      ensures RedeemIsThere(start.rewards, db'.redemptions, log + [e], k)
    {
      assert RedeemIsThere(start.rewards, db.redemptions, log, k);
      var j: nat :| AskedAt(start.rewards, db.redemptions, log, j, k);
      AskedStays(start.rewards, db.redemptions, more, log, e, j, k);
    }
  }

  lemma RedeemIsAsked(start: Db, db: Db, log: seq<Entry>, e: Entry) returns (more: seq<Redemption>)
    requires Posts(db, e.req, e.id) && SamePrices(start.rewards, db.rewards)
    ensures var db' := Execute(db, e.req, e.id).0;
            && |more| == (if e.req.Redeem? then 1 else 0)
            && db'.redemptions == db.redemptions + more && SamePrices(start.rewards, db'.rewards)
            && (e.req.Redeem? ==> AskedAt(start.rewards, db'.redemptions, log + [e], |db.redemptions|, |log|))
  {
    hide Posts, Execute, SamePrices, RedemptionAskedBy;
    if e.req.Redeem? {
      RedeemedIsAsked(start, db, e);
      more := [Execute(db, e.req, e.id).1.redemption];
    } else {
      PostedIsAsked(start, db, e);
      more := [];
    }
  }

  lemma ExecuteKeepsAsked(start: Db, db: Db, log: seq<Entry>, e: Entry)
    requires Asked(start, db, log) && Posts(db, e.req, e.id)
    ensures Asked(start, Execute(db, e.req, e.id).0, log + [e])
  {
    var db' := Execute(db, e.req, e.id).0;
    hide Posts, Execute, RowAskedBy, SamePrices, AskedAt;
    PostedIsAsked(start, db, e);
    var more := RedeemIsAsked(start, db, log, e);
    OldStayAsked(start, db, db', log, e, more);
  }

  /**
   Over every run, from any tables it may start from: the k-th committed request posted the k-th new
   ledger row, of its own user and kind and the nearest integer to its amount; each new redemption is
   the user's, the reward's, the campaign's and the key's that one of them named, at the reward's price;
   and neither users nor anything of a reward but its stock has changed.
   */
  lemma {:induction false} OnlyWhatWasAskedFor(start: Db, nextId: nat, actions: seq<Action>)
    requires Startable(start, nextId)
    ensures Asked(start, Run(Initial(start, nextId), actions).db, Run(Initial(start, nextId), actions).log)
  {
    if actions != [] {
      var before := actions[..|actions| - 1];
      var s := Run(Initial(start, nextId), before);
      var a := actions[|actions| - 1];
      OnlyWhatWasAskedFor(start, nextId, before);
      RunIsGood(start, nextId, before);
      hide Asked, Startable, Sound, Replay, StockAccounted, IdsFollowChain, LocksOwned, IdsDistinct, Run, Execute;
      hide Apply, Visible;
      if Commits(s, a) {
        TxnInvOf(s, a.t);
        CommitsIsStepCommit(s, a);
        CommitIsSerial(s, a.t);
        ExecuteKeepsAsked(start, s.db, s.log, Entry(s.txns[a.t].req, s.txns[a.t].row.value.id));
      } else {
        OnlyCommitWrites(s, a);
      }
    }
  }
}
