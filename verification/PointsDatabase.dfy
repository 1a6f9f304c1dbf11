/**
 The points tables and what one request does to them when it runs alone.

 `Execute` is the simple form of recordPointTransaction and redeemReward: one
 request, one step. PointsMachine.dfy takes the two procedures apart into their
 database statements and proves that every interleaving of them has the effect
 of executing the committed requests one after the other.
 */
module PointsDatabase {
  import opened Options

  /** point_transactions.type; `Unlisted` stands for any text the CHECK on that column rejects. */
  datatype Kind = Earned | Redeemed | Expired | Bonus | Referral | Unlisted

  datatype LedgerRow = LedgerRow(id: nat, user: int, kind: Kind, amount: int, before: int, after: int)

  datatype Reward = Reward(cost: real, stock: int, active: bool, deleted: bool)

  datatype Redemption = Redemption(user: int, reward: int, campaign: Option<int>, points: int, key: string, txId: nat)

  datatype Db = Db(
    users: set<int>,
    rewards: map<int, Reward>,
    balances: map<int, int>,
    ledger: seq<LedgerRow>,
    redemptions: seq<Redemption>)

  /** A caller's amount is any JavaScript value; None is one that is not a finite number. */
  datatype Request =
    | Record(user: int, kind: Kind, amount: Option<real>)
    | Redeem(user: int, reward: int, campaign: Option<int>, key: string)

  datatype Reason =
    | InvalidAmount | UnknownUser | InsufficientPoints | ConstraintViolated
    | RewardNotFound | RewardInactive | OutOfStock | KeyTaken | ConnectionLost

  datatype Outcome =
    | Recorded(row: LedgerRow)
    | Fresh(redemption: Redemption, row: LedgerRow)
    | Replayed(redemption: Redemption, currentBalance: Option<int>)
    | Refused(reason: Reason)

  // ---------------------------------------------------------------- arithmetic

  /** Math.round: ties go up. */
  function Round(x: real): int {
    (x + 0.5).Floor
  }

  /** The range of a PostgreSQL INTEGER column. */
  predicate FitsInteger(x: int) {
    -0x8000_0000 <= x < 0x8000_0000
  }

  function Signed(kind: Kind, amount: int): int {
    if kind == Redeemed || kind == Expired then -amount else amount
  }

  /** The rounded amount, when the repository's guard lets it through. */
  function ValidAmount(amount: Option<real>): Option<int> {
    match amount
    case None => None
    case Some(x) => if Round(x) == 0 then None else Some(Round(x))
  }

  // ---------------------------------------------------------------- reading

  function BalanceOf(db: Db, user: int): int {
    if user in db.balances then db.balances[user] else 0
  }

  /** The row of the redemptions table that has this idempotency key. */
  function FindKey(redemptions: seq<Redemption>, key: string): (r: Option<Redemption>)
    ensures r.Some? ==> r.value in redemptions && r.value.key == key
    ensures r.None? ==> forall x :: x in redemptions ==> x.key != key
  {
    if redemptions == [] then None
    else if redemptions[0].key == key then Some(redemptions[0])
    else FindKey(redemptions[1..], key)
  }

  /** balance_after of the ledger row with this id: the LEFT JOIN of the replay query. */
  function FindAfter(ledger: seq<LedgerRow>, id: nat): (r: Option<int>)
    ensures r.Some? ==> exists row :: row in ledger && row.id == id && row.after == r.value
    ensures r.None? ==> forall row :: row in ledger ==> row.id != id
  {
    if ledger == [] then None
    else if ledger[0].id == id then Some(ledger[0].after)
    else FindAfter(ledger[1..], id)
  }

  function UserRows(ledger: seq<LedgerRow>, user: int): seq<LedgerRow> {
    if ledger == [] then []
    else
      var last := ledger[|ledger| - 1];
      UserRows(ledger[..|ledger| - 1], user) + if last.user == user then [last] else []
  }

  function SignedSum(rows: seq<LedgerRow>): int {
    if rows == [] then 0
    else
      var last := rows[|rows| - 1];
      SignedSum(rows[..|rows| - 1]) + Signed(last.kind, last.amount)
  }

  function CountFor(redemptions: seq<Redemption>, reward: int): nat {
    if redemptions == [] then 0
    else
      var last := redemptions[|redemptions| - 1];
      CountFor(redemptions[..|redemptions| - 1], reward) + if last.reward == reward then 1 else 0
  }

  // ---------------------------------------------------------------- writing

  /** INSERT INTO point_transactions and its trigger, which copies balance_after to user_balance. */
  function Post(db: Db, row: LedgerRow): Db {
    db.(ledger := db.ledger + [row], balances := db.balances[row.user := row.after])
  }

  function TakeStock(db: Db, reward: int): Db
    requires reward in db.rewards
  {
    var r := db.rewards[reward];
    db.(rewards := db.rewards[reward := r.(stock := r.stock - 1)])
  }

  function AddRedemption(db: Db, r: Redemption): Db {
    db.(redemptions := db.redemptions + [r])
  }

  /** The column checks on point_transactions that the application code does not make itself. */
  predicate RowAccepted(row: LedgerRow) {
    row.kind != Unlisted && row.amount != 0 && FitsInteger(row.amount) && row.after >= 0 && FitsInteger(row.after)
  }

  function ExecuteRecord(db: Db, user: int, kind: Kind, amount: Option<real>, id: nat): (Db, Outcome) {
    match ValidAmount(amount)
    case None => (db, Refused(InvalidAmount))
    case Some(n) =>
      var before := BalanceOf(db, user);
      var row := LedgerRow(id, user, kind, n, before, before + Signed(kind, n));
      if user !in db.balances && user !in db.users then (db, Refused(UnknownUser))
      else if row.after < 0 then (db, Refused(InsufficientPoints))
      else if !RowAccepted(row) then (db, Refused(ConstraintViolated))
      else (Post(db, row), Recorded(row))
  }

  function ExecuteRedeem(db: Db, user: int, reward: int, campaign: Option<int>, key: string, id: nat): (Db, Outcome) {
    match FindKey(db.redemptions, key)
    case Some(found) => (db, Replayed(found, FindAfter(db.ledger, found.txId)))
    case None =>
      if reward !in db.rewards || db.rewards[reward].deleted then (db, Refused(RewardNotFound))
      else if !db.rewards[reward].active then (db, Refused(RewardInactive))
      else if db.rewards[reward].stock <= 0 then (db, Refused(OutOfStock))
      else
        var cost := Round(db.rewards[reward].cost);
        var before := BalanceOf(db, user);
        var row := LedgerRow(id, user, Redeemed, cost, before, before - cost);
        var entry := Redemption(user, reward, campaign, cost, key, id);
        if user !in db.balances && user !in db.users then (db, Refused(UnknownUser))
        else if before < cost then (db, Refused(InsufficientPoints))
        else if !RowAccepted(row) then (db, Refused(ConstraintViolated))
        else (AddRedemption(Post(TakeStock(db, reward), row), entry), Fresh(entry, row))
  }

  /** One request run alone; `id` is the key the ledger insert draws from its sequence. */
  function Execute(db: Db, req: Request, id: nat): (Db, Outcome) {
    match req
    case Record(user, kind, amount) => ExecuteRecord(db, user, kind, amount, id)
    case Redeem(user, reward, campaign, key) => ExecuteRedeem(db, user, reward, campaign, key, id)
  }

  /** Whether a request, run alone, writes. */
  predicate Posts(db: Db, req: Request, id: nat) {
    var outcome := Execute(db, req, id).1;
    outcome.Recorded? || outcome.Fresh?
  }

  datatype Entry = Entry(req: Request, id: nat)

  /** The committed requests, executed one after the other. */
  function Replay(db: Db, log: seq<Entry>): Db {
    if log == [] then db
    else
      var last := log[|log| - 1];
      Execute(Replay(db, log[..|log| - 1]), last.req, last.id).0
  }

  lemma ReplayAppend(db: Db, log: seq<Entry>, e: Entry)
    ensures Replay(db, log + [e]) == Execute(Replay(db, log), e.req, e.id).0
  {
    assert (log + [e])[..|log|] == log;
  }

  // ---------------------------------------------------------------- soundness

  /** balance_after of the last row, or 0 before there is one. */
  function LastAfter(rows: seq<LedgerRow>): int {
    if rows == [] then 0 else rows[|rows| - 1].after
  }

  ghost predicate Links(before: int, row: LedgerRow) {
    && row.before == before
    && row.after == row.before + Signed(row.kind, row.amount)
    && row.after >= 0
  }

  /** An unbroken chain: it starts at 0, each row starts where the one before ended, none is negative. */
  ghost predicate Chained(rows: seq<LedgerRow>) {
    forall i :: 0 <= i < |rows| ==> Links(LastAfter(rows[..i]), rows[i])
  }

  /** The user's balance row, the last balance_after and the signed sum of all rows agree. */
  ghost predicate BalanceAgrees(db: Db, user: int) {
    var rows := UserRows(db.ledger, user);
    && BalanceOf(db, user) == SignedSum(rows)
    && BalanceOf(db, user) == LastAfter(rows)
  }

  /** What one user's rows and balance must satisfy. */
  ghost predicate Account(db: Db, user: int) {
    Chained(UserRows(db.ledger, user)) && BalanceAgrees(db, user)
  }

  ghost predicate UniqueIds(ledger: seq<LedgerRow>) {
    forall i, j :: 0 <= i < j < |ledger| ==> ledger[i].id != ledger[j].id
  }

  /** Each redemption pays with its own 'redeemed' row, of the same user and the same points. */
  ghost predicate Paid(db: Db) {
    && (forall r :: r in db.redemptions ==> PaidBy(db, r))
    && (forall i, j :: 0 <= i < j < |db.redemptions| ==> db.redemptions[i].txId != db.redemptions[j].txId)
  }

  ghost predicate PaidBy(db: Db, r: Redemption) {
    exists row :: row in db.ledger && row.id == r.txId && row.user == r.user && row.kind == Redeemed &&
        row.amount == r.points
  }

  ghost predicate UniqueKeys(redemptions: seq<Redemption>) {
    forall i, j :: 0 <= i < j < |redemptions| ==> redemptions[i].key != redemptions[j].key
  }

  ghost predicate Sound(db: Db) {
    && (forall u :: Account(db, u))
    && (forall u :: u in db.balances ==> u in db.users)
    && (forall r :: r in db.rewards ==> db.rewards[r].stock >= 0)
    && UniqueIds(db.ledger)
    && UniqueKeys(db.redemptions)
    && Paid(db)
  }

  /** Stock and redemptions: what has left the shelf since `start` is what was redeemed since. */
  ghost predicate StockAccounted(start: Db, db: Db) {
    && start.rewards.Keys == db.rewards.Keys
    && forall r :: r in db.rewards ==>
      start.rewards[r].stock - db.rewards[r].stock == CountFor(db.redemptions, r) - CountFor(start.redemptions, r)
  }

  ghost predicate FreshId(db: Db, id: nat) {
    forall row :: row in db.ledger ==> row.id != id
  }

  lemma UserRowsAppend(ledger: seq<LedgerRow>, row: LedgerRow, user: int)
    ensures UserRows(ledger + [row], user) == UserRows(ledger, user) + if row.user == user then [row] else []
  {
    assert (ledger + [row])[..|ledger|] == ledger;
  }

  lemma SignedSumAppend(rows: seq<LedgerRow>, row: LedgerRow)
    ensures SignedSum(rows + [row]) == SignedSum(rows) + Signed(row.kind, row.amount)
  {
    assert (rows + [row])[..|rows|] == rows;
  }

  lemma CountForAppend(redemptions: seq<Redemption>, r: Redemption, reward: int)
    ensures CountFor(redemptions + [r], reward) == CountFor(redemptions, reward) + if r.reward == reward then 1 else 0
  {
    assert (redemptions + [r])[..|redemptions|] == redemptions;
  }

  lemma ChainedAppend(rows: seq<LedgerRow>, row: LedgerRow)
    requires Chained(rows) && Links(LastAfter(rows), row)
    ensures Chained(rows + [row])
  {
    var longer := rows + [row];
    forall i | 0 <= i < |longer|
      ensures Links(LastAfter(longer[..i]), longer[i])
    {
      assert longer[..i] == rows[..i];
      assert i == |rows| ==> rows[..i] == rows;
    }
  }

  /** A linked row makes sum and last balance_after agree on its own balance_after. */
  lemma LinkedSum(rows: seq<LedgerRow>, row: LedgerRow)
    requires SignedSum(rows) == LastAfter(rows) && Links(LastAfter(rows), row)
    ensures SignedSum(rows + [row]) == row.after == LastAfter(rows + [row])
  {
    SignedSumAppend(rows, row);
  }

  lemma UserRowsAfterPost(db: Db, row: LedgerRow, user: int, rows: seq<LedgerRow>)
    requires rows == UserRows(db.ledger, user)
    ensures UserRows(Post(db, row).ledger, user) == if row.user == user then rows + [row] else rows
  {
    UserRowsAppend(db.ledger, row, user);
    assert rows + [] == rows;
  }

  lemma BalanceAfterPost(db: Db, row: LedgerRow, user: int)
    ensures BalanceOf(Post(db, row), user) == if row.user == user then row.after else BalanceOf(db, user)
  {
  }

  /** Posting a row whose balance_before is the user's balance extends that user's chain and no other. */
  lemma PostKeepsAccount(db: Db, row: LedgerRow, user: int)
    requires Account(db, user)
    requires Links(BalanceOf(db, row.user), row)
    ensures Account(Post(db, row), user)
  {
    var rows := UserRows(db.ledger, user);
    UserRowsAfterPost(db, row, user, rows);
    BalanceAfterPost(db, row, user);
    hide Post, UserRows, Links, SignedSum, LastAfter, Chained;
    if row.user == user {
      LinkedSum(rows, row);
      ChainedAppend(rows, row);
    }
  }

  /** A new redemption that refers to a row just posted under an unused id keeps `Paid`. */
  lemma AddKeepsPaid(db: Db, posted: Db, r: Redemption)
    requires Paid(db) && FreshId(db, r.txId) && posted.redemptions == db.redemptions
    requires forall row :: row in db.ledger ==> row in posted.ledger
    requires PaidBy(posted, r)
    ensures Paid(AddRedemption(posted, r))
  {
    var db' := AddRedemption(posted, r);
    forall x | x in db'.redemptions
      ensures PaidBy(db', x)
    {
      assert PaidBy(posted, x) by {
        assert x in db.redemptions ==> PaidBy(db, x);
      }
    }
    forall i | 0 <= i < |db.redemptions|
      ensures db.redemptions[i].txId != r.txId
    {
      assert PaidBy(db, db.redemptions[i]);
    }
  }

  lemma TakeStockKeepsAccount(db: Db, reward: int, user: int)
    requires reward in db.rewards && Account(db, user)
    ensures Account(TakeStock(db, reward), user)
  {
  }

  lemma AddRedemptionKeepsAccount(db: Db, r: Redemption, user: int)
    requires Account(db, user)
    ensures Account(AddRedemption(db, r), user)
  {
  }

  lemma ExecuteKeepsAccount(db: Db, req: Request, id: nat, user: int)
    requires Account(db, user)
    ensures Account(Execute(db, req, id).0, user)
  {
    hide Account, FindKey, FindAfter;
    var outcome := Execute(db, req, id).1;
    if outcome.Recorded? {
      PostKeepsAccount(db, outcome.row, user);
    } else if outcome.Fresh? {
      var shelf := TakeStock(db, req.reward);
      TakeStockKeepsAccount(db, req.reward, user);
      PostKeepsAccount(shelf, outcome.row, user);
      AddRedemptionKeepsAccount(Post(shelf, outcome.row), outcome.redemption, user);
    }
  }

  lemma ExecuteKeepsPaid(db: Db, req: Request, id: nat)
    requires Paid(db) && FreshId(db, id)
    ensures Paid(Execute(db, req, id).0)
  {
    var (db', outcome) := Execute(db, req, id);
    if outcome.Recorded? {
      forall r | r in db'.redemptions
        ensures PaidBy(db', r)
      {
        assert PaidBy(db, r);
      }
    } else if outcome.Fresh? {
      var posted := Post(TakeStock(db, req.reward), outcome.row);
      assert outcome.row in posted.ledger;
      AddKeepsPaid(db, posted, outcome.redemption);
    }
  }

  lemma ExecuteKeepsShelf(db: Db, req: Request, id: nat)
    requires forall u :: u in db.balances ==> u in db.users
    requires forall r :: r in db.rewards ==> db.rewards[r].stock >= 0
    ensures var db' := Execute(db, req, id).0;
            && (forall u :: u in db'.balances ==> u in db'.users)
            && (forall r :: r in db'.rewards ==> db'.rewards[r].stock >= 0)
  {
    hide FindKey, FindAfter, RowAccepted;
  }

  lemma ExecuteKeepsUnique(db: Db, req: Request, id: nat)
    requires FreshId(db, id) && UniqueIds(db.ledger) && UniqueKeys(db.redemptions)
    ensures UniqueIds(Execute(db, req, id).0.ledger) && UniqueKeys(Execute(db, req, id).0.redemptions)
  {
    hide FindAfter, RowAccepted;
  }

  /** Every request, served or refused, keeps the tables sound. */
  lemma ExecuteKeepsSound(db: Db, req: Request, id: nat)
    requires Sound(db) && FreshId(db, id)
    ensures Sound(Execute(db, req, id).0)
  {
    hide Execute, Account, Paid, UniqueIds, UniqueKeys, FreshId;
    forall u
      ensures Account(Execute(db, req, id).0, u)
    {
      ExecuteKeepsAccount(db, req, id, u);
    }
    ExecuteKeepsPaid(db, req, id);
    ExecuteKeepsShelf(db, req, id);
    ExecuteKeepsUnique(db, req, id);
  }

  lemma ExecuteKeepsStock(start: Db, db: Db, req: Request, id: nat)
    requires StockAccounted(start, db)
    ensures StockAccounted(start, Execute(db, req, id).0)
  {
    var (db', outcome) := Execute(db, req, id);
    if outcome.Fresh? {
      forall r | r in db'.rewards
        ensures start.rewards[r].stock - db'.rewards[r].stock ==
                CountFor(db'.redemptions, r) - CountFor(start.redemptions, r)
      {
        CountForAppend(db.redemptions, outcome.redemption, r);
      }
    }
  }

  /** A key that has been redeemed is answered from the table, and nothing changes. */
  lemma ReplayedKeyChangesNothing(db: Db, req: Request, id: nat)
    requires req.Redeem? && exists r :: r in db.redemptions && r.key == req.key
    ensures Execute(db, req, id).0 == db
    ensures Execute(db, req, id).1.Replayed?
    ensures Execute(db, req, id).1.redemption in db.redemptions
    ensures Execute(db, req, id).1.redemption.key == req.key
  {
  }

  /** A key's first row stays its first row as redemptions are added. */
  lemma {:induction false} FindKeyStable(redemptions: seq<Redemption>, more: seq<Redemption>, key: string)
    requires FindKey(redemptions, key).Some?
    ensures FindKey(redemptions + more, key) == FindKey(redemptions, key)
  {
    if redemptions[0].key != key {
      assert (redemptions + more)[1..] == redemptions[1..] + more;
      FindKeyStable(redemptions[1..], more, key);
    }
  }

  lemma {:induction false} FindAfterStable(ledger: seq<LedgerRow>, more: seq<LedgerRow>, id: nat)
    requires FindAfter(ledger, id).Some?
    ensures FindAfter(ledger + more, id) == FindAfter(ledger, id)
  {
    if ledger[0].id != id {
      assert (ledger + more)[1..] == ledger[1..] + more;
      FindAfterStable(ledger[1..], more, id);
    }
  }

  // ---------------------------------------------------------------- what the kinds mean for a balance

  /** The amounts of a user's rows of one kind. */
  function Total(ledger: seq<LedgerRow>, user: int, kind: Kind): int {
    if ledger == [] then 0
    else
      var last := ledger[|ledger| - 1];
      Total(ledger[..|ledger| - 1], user, kind) + if last.user == user && last.kind == kind then last.amount else 0
  }

  /** What the user was given, less what was redeemed or has expired. */
  function EarnedLessSpent(ledger: seq<LedgerRow>, user: int): int {
    Total(ledger, user, Earned) + Total(ledger, user, Bonus) + Total(ledger, user, Referral)
    - Total(ledger, user, Redeemed) - Total(ledger, user, Expired)
  }

  ghost predicate BalancesAreEarnings(db: Db) {
    forall user :: BalanceOf(db, user) == EarnedLessSpent(db.ledger, user)
  }

  lemma TotalAppend(ledger: seq<LedgerRow>, row: LedgerRow, user: int, kind: Kind)
    ensures Total(ledger + [row], user, kind) ==
            Total(ledger, user, kind) + if row.user == user && row.kind == kind then row.amount else 0
  {
    assert (ledger + [row])[..|ledger|] == ledger;
  }

  /** What a row is worth to its user: given, or taken, by its kind. */
  predicate MovesBalance(before: int, row: LedgerRow) {
    match row.kind
    case Earned => row.after == before + row.amount
    case Bonus => row.after == before + row.amount
    case Referral => row.after == before + row.amount
    case Redeemed => row.after == before - row.amount
    case Expired => row.after == before - row.amount
    case Unlisted => false
  }

  lemma EarningsMove(ledger: seq<LedgerRow>, before: int, row: LedgerRow, user: int)
    requires MovesBalance(before, row)
    ensures EarnedLessSpent(ledger + [row], user) ==
            EarnedLessSpent(ledger, user) + if row.user == user then row.after - before else 0
  {
    TotalAppend(ledger, row, user, Earned);
    TotalAppend(ledger, row, user, Bonus);
    TotalAppend(ledger, row, user, Referral);
    TotalAppend(ledger, row, user, Redeemed);
    TotalAppend(ledger, row, user, Expired);
    hide Total;
  }

  /**
   A request that writes posts one row of the caller's user, kind and rounded amount, and moves
   that user's balance by exactly it: up for what is earned, a bonus or a referral, down for
   what is redeemed or expires.
   */
  lemma RequestMovesBalance(db: Db, req: Request, id: nat)
    requires Posts(db, req, id)
    ensures var (db', outcome) := Execute(db, req, id);
            var row := outcome.row;
            && db'.ledger == db.ledger + [row] && row.id == id && row.user == req.user
            && row.before == BalanceOf(db, req.user) && BalanceOf(db', req.user) == row.after
            && MovesBalance(BalanceOf(db, req.user), row)
            && match req
               case Record(_, kind, amount) => row.kind == kind && amount.Some? && row.amount == Round(amount.value)
               case Redeem(_, reward, _, _) =>
                 row.kind == Redeemed && reward in db.rewards && row.amount == Round(db.rewards[reward].cost)
  {
    hide Round, FindKey, FindAfter;
  }

  /** And nobody else's. */
  lemma RequestMovesNoOther(db: Db, req: Request, id: nat, user: int)
    requires user != req.user || !Posts(db, req, id)
    ensures BalanceOf(Execute(db, req, id).0, user) == BalanceOf(db, user)
  {
    hide Round, FindKey, FindAfter, RowAccepted;
  }

  /** Math.round: the nearest integer, a tie going up. */
  lemma RoundIsNearest(x: real)
    ensures Round(x) as real - 0.5 <= x < Round(x) as real + 0.5
  {
  }

  lemma RefusedKeepsLedger(db: Db, req: Request, id: nat)
    requires !Posts(db, req, id)
    ensures Execute(db, req, id).0.ledger == db.ledger
  {
    hide Round, FindKey, FindAfter, RowAccepted;
  }

  lemma UserKeepsEarnings(db: Db, req: Request, id: nat, user: int)
    requires BalanceOf(db, user) == EarnedLessSpent(db.ledger, user)
    ensures BalanceOf(Execute(db, req, id).0, user) == EarnedLessSpent(Execute(db, req, id).0.ledger, user)
  {
    hide Execute, BalanceOf, EarnedLessSpent, MovesBalance;
    if Posts(db, req, id) {
      RequestMovesBalance(db, req, id);
      EarningsMove(db.ledger, BalanceOf(db, req.user), Execute(db, req, id).1.row, user);
    } else {
      RefusedKeepsLedger(db, req, id);
    }
    if user != req.user || !Posts(db, req, id) {
      RequestMovesNoOther(db, req, id, user);
    }
  }

  lemma ExecuteKeepsEarnings(db: Db, req: Request, id: nat)
    requires BalancesAreEarnings(db)
    ensures BalancesAreEarnings(Execute(db, req, id).0)
  {
    hide Execute, EarnedLessSpent;
    forall user
      ensures BalanceOf(Execute(db, req, id).0, user) == EarnedLessSpent(Execute(db, req, id).0.ledger, user)
    {
      assert BalanceOf(db, user) == EarnedLessSpent(db.ledger, user);
      UserKeepsEarnings(db, req, id, user);
    }
  }

  // ---------------------------------------------------------------- which 'redeemed' rows are redemptions

  /** A 'redeemed' ledger row that no redemption refers to. */
  ghost predicate Unreferenced(db: Db, row: LedgerRow) {
    row in db.ledger && row.kind == Redeemed && forall r :: r in db.redemptions ==> r.txId != row.id
  }

  /** recordPointTransaction called with type 'redeemed': a debit with no redemption behind it. */
  predicate BareRedeemed(req: Request) {
    req.Record? && req.kind == Redeemed
  }

  ghost predicate NoUnreferenced(db: Db) {
    forall row :: !Unreferenced(db, row)
  }

  /**
   'redeemed' rows and redemptions stay in bijection exactly while no request that
   writes is a bare 'redeemed' record: the repository accepts that type from any caller.
   */
  lemma BijectionIffNoBareRecord(db: Db, req: Request, id: nat)
    requires Sound(db) && FreshId(db, id) && NoUnreferenced(db)
    ensures NoUnreferenced(Execute(db, req, id).0) <==> !(Posts(db, req, id) && BareRedeemed(req))
  {
    var (db', outcome) := Execute(db, req, id);
    if Posts(db, req, id) && BareRedeemed(req) {
      assert outcome.row in db'.ledger;
      forall r | r in db'.redemptions
        ensures r.txId != id
      {
        assert PaidBy(db, r);
      }
      assert Unreferenced(db', outcome.row);
    } else {
      forall row
        ensures !Unreferenced(db', row)
      {
        assert !Unreferenced(db, row);
        if outcome.Fresh? {
          assert outcome.redemption in db'.redemptions;
          assert forall r :: r in db.redemptions ==> r in db'.redemptions;
        }
      }
    }
  }

  /** A reward whose cost rounds to 0 can never be redeemed: the ledger refuses a zero amount. */
  lemma CheapRewardIsNeverRedeemed(db: Db, req: Request, id: nat)
    requires req.Redeem? && req.reward in db.rewards && 0.0 < db.rewards[req.reward].cost < 0.5
    ensures !Execute(db, req, id).1.Fresh?
    ensures Execute(db, req, id).0 == db
  {
  }
}
