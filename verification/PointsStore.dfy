/**
 The two repository procedures in the source's own form: statements that change
 the tables in place, a rollback that puts them back, and an answer. Each is
 proved to be `PointsDatabase.Execute`.
 */
module PointsStore {
  import opened Options
  import opened PointsDatabase

  class Store {
    var users: set<int>
    var rewards: map<int, Reward>
    var balances: map<int, int>
    var ledger: seq<LedgerRow>
    var redemptions: seq<Redemption>
    var nextId: nat

    constructor (tables: Db, nextId: nat)
      ensures Tables() == tables && this.nextId == nextId
    {
      users, rewards, balances := tables.users, tables.rewards, tables.balances;
      ledger, redemptions := tables.ledger, tables.redemptions;
      this.nextId := nextId;
    }

    /** The tables as one value. */
    function Tables(): Db
      reads this
    {
      Db(users, rewards, balances, ledger, redemptions)
    }

    method Rollback(saved: Db)
      modifies this
      ensures Tables() == saved && nextId == old(nextId)
    {
      users, rewards, balances := saved.users, saved.rewards, saved.balances;
      ledger, redemptions := saved.ledger, saved.redemptions;
    }

    /** INSERT INTO user_balance (user_id, balance) VALUES ($1, 0) ON CONFLICT DO NOTHING. */
    method EnsureBalance(user: int) returns (ok: bool)
      modifies this`balances
      ensures ok == (user in old(balances) || user in users)
      ensures balances == if ok && user !in old(balances) then old(balances)[user := 0] else old(balances)
    {
      ok := user in balances || user in users;
      if ok && user !in balances {
        balances := balances[user := 0];
      }
    }

    /** INSERT INTO point_transactions, with its checks and the trigger on user_balance. */
    method InsertLedger(user: int, kind: Kind, amount: int, before: int, after: int) returns (row: Option<LedgerRow>)
      modifies this`ledger, this`balances, this`nextId
      ensures nextId == old(nextId) + 1
      ensures var r := LedgerRow(old(nextId), user, kind, amount, before, after);
              if RowAccepted(r) then row == Some(r) && Tables() == Post(old(Tables()), r)
              else row == None && Tables() == old(Tables())
    {
      var r := LedgerRow(nextId, user, kind, amount, before, after);
      nextId := nextId + 1;
      if RowAccepted(r) {
        ledger := ledger + [r];
        balances := balances[user := after];
        row := Some(r);
      } else {
        row := None;
      }
    }

    method RecordPointTransaction(user: int, kind: Kind, amount: Option<real>) returns (outcome: Outcome)
      modifies this
      ensures (Tables(), outcome) == Execute(old(Tables()), Record(user, kind, amount), old(nextId))
      ensures old(nextId) <= nextId <= old(nextId) + 1
      ensures outcome.Recorded? ==> nextId == old(nextId) + 1
    {
      var checked := ValidAmount(amount);
      if checked.None? {
        return Refused(InvalidAmount);
      }
      var n := checked.value;
      var saved := Tables();
      var known := EnsureBalance(user);
      if !known {
        return Refused(UnknownUser);
      }
      var before := balances[user];
      var after := before + Signed(kind, n);
      if after < 0 {
        Rollback(saved);
        return Refused(InsufficientPoints);
      }
      var row := InsertLedger(user, kind, n, before, after);
      if row.None? {
        Rollback(saved);
        return Refused(ConstraintViolated);
      }
      assert saved.balances[user := 0][user := after] == saved.balances[user := after];
      outcome := Recorded(row.value);
    }

    method RedeemReward(user: int, reward: int, campaign: Option<int>, key: string) returns (outcome: Outcome)
      modifies this
      ensures (Tables(), outcome) == Execute(old(Tables()), Redeem(user, reward, campaign, key), old(nextId))
      ensures old(nextId) <= nextId <= old(nextId) + 1
      ensures outcome.Fresh? ==> nextId == old(nextId) + 1
    {
      var existing := FindKey(redemptions, key);
      if existing.Some? {
        return Replayed(existing.value, FindAfter(ledger, existing.value.txId));
      }
      var saved := Tables();
      if reward !in rewards || rewards[reward].deleted {
        return Refused(RewardNotFound);
      }
      var r := rewards[reward];
      if !r.active {
        return Refused(RewardInactive);
      }
      if r.stock <= 0 {
        return Refused(OutOfStock);
      }
      var cost := Round(r.cost);
      var known := EnsureBalance(user);
      if !known {
        return Refused(UnknownUser);
      }
      var before := balances[user];
      if before < cost {
        Rollback(saved);
        return Refused(InsufficientPoints);
      }
      rewards := rewards[reward := r.(stock := r.stock - 1)];
      var row := InsertLedger(user, Redeemed, cost, before, before - cost);
      if row.None? {
        Rollback(saved);
        return Refused(ConstraintViolated);
      }
      var entry := Redemption(user, reward, campaign, cost, key, row.value.id);
      redemptions := redemptions + [entry];
      assert saved.balances[user := 0][user := before - cost] == saved.balances[user := before - cost];
      outcome := Fresh(entry, row.value);
    }
  }
}
